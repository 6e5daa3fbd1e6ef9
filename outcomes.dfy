/** Values shared by every module: optional values, the exceptions the
    source raises, and a "returns or raises" wrapper for Python calls. */
module Outcomes {

  datatype Option<T> = None | Some(value: T)

  /** The exceptions a modelled call can raise. */
  datatype Error =
    | RootNotFound        // FileNotFoundError: the bundle directory does not exist
    | CacheFileNotGiven   // FileNotFoundError: the cache-file argument is empty
    | CacheFileMissing    // open() of the selected index cache fails
    | OddLengthHex        // binascii.Error from unhexlify of an odd-length prefix
    | NoMatchGroup        // AttributeError: re.search returned None
    | IsADirectory        // open() of a directory entry
    | FileVanished        // open() of a path that no longer exists
    | PixelIndex          // IndexError: a conversion reads a channel the pixel lacks

  /** The outcome of a Python call: a returned value or a raised exception. */
  datatype Raises<T> = Returns(value: T) | Raises(error: Error)
}

/** Path-string helpers (POSIX separator '/'). */
module Paths {

  /** os.path.basename: the text after the last '/' (all of `p` when it has none). */
  function Basename(p: string): string {
    if p == [] || p[|p| - 1] == '/' then [] else Basename(p[..|p| - 1]) + [p[|p| - 1]]
  }

  /** The base name is a suffix of the path that holds no '/', and the
      character just before it, if any, is '/'. */
  lemma {:induction false} BasenameIsLastComponent(p: string)
    ensures var b := Basename(p);
      && |b| <= |p| && p[|p| - |b|..] == b
      && '/' !in b
      && (|b| < |p| ==> p[|p| - |b| - 1] == '/')
  {
    if p != [] && p[|p| - 1] != '/' {
      var init := p[..|p| - 1];
      BasenameIsLastComponent(init);
      var b := Basename(init);
      var c := p[|p| - 1];
      assert Basename(p) == b + [c];
      var start := |init| - |b|;
      assert p[start..] == init[start..] + [c];
      assert '/' !in b + [c] by {
        forall x | x in b + [c] ensures x != '/' {
          assert x in b || x == c;
        }
      }
      if start > 0 {
        assert p[start - 1] == init[start - 1];
      }
    }
  }

  /** A path with no '/' is its own base name. */
  lemma BasenameOfPlainName(p: string)
    requires '/' !in p
    ensures Basename(p) == p
  {
    AppendName([], p);
    assert [] + p == p;
  }

  /** The path up to and including its last '/' (empty when it has none). */
  function DirPart(p: string): string {
    if p == [] || p[|p| - 1] == '/' then p else DirPart(p[..|p| - 1])
  }

  /** A path is its directory part followed by its base name. */
  lemma {:induction false} DirPartAndBasename(p: string)
    ensures DirPart(p) + Basename(p) == p
    ensures DirPart(p) == [] || DirPart(p)[|DirPart(p)| - 1] == '/'
  {
    if p != [] && p[|p| - 1] != '/' {
      var init := p[..|p| - 1];
      DirPartAndBasename(init);
      assert DirPart(init) + Basename(init) + [p[|p| - 1]] == init + [p[|p| - 1]] == p;
    }
  }

  /** Appending a slash-free name to a directory part (empty or ending in
      '/') gives a path with that directory part and that base name. */
  lemma {:induction false} AppendName(dir: string, name: string)
    requires dir == [] || dir[|dir| - 1] == '/'
    requires '/' !in name
    ensures Basename(dir + name) == name
    ensures DirPart(dir + name) == dir
  {
    if name != [] {
      var init := name[..|name| - 1];
      AppendName(dir, init);
      assert (dir + name)[..|dir + name| - 1] == dir + init;
      assert init + [name[|name| - 1]] == name;
    } else {
      assert dir + name == dir;
    }
  }

  /** An entry that `iterdir` of the root yields: its relative path has no separator. */
  predicate TopLevel(rel: string) {
    '/' !in rel
  }
}
