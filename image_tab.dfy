/** `image_tab.py`: the in-place image conversion of `ImageTab.process_image`.
    The original file is renamed to a backup name in the same directory and
    the converted image is saved under the original name. */
module ImageTab {
  import opened Outcomes
  import opened Paths
  import opened AlphaConversion
  import opened ImageProcessor

  // ---------------------------------------------------------------------
  // Path strings

  /** `s.rstrip('/')`. */
  function RStripSlashes(s: string): (r: string)
    ensures r <= s
  {
    if s != [] && s[|s| - 1] == '/' then RStripSlashes(s[..|s| - 1]) else s
  }

  /** The head of `os.path.split`: the directory part without its trailing
      slashes, unless it is made of slashes only. */
  function SplitHead(p: string): (r: string)
    ensures r <= p
  {
    DirPartAndBasename(p);
    var head := DirPart(p);
    var stripped := RStripSlashes(head);
    if stripped == [] then head else stripped
  }

  /** `os.path.join(head, tail)` for two components. */
  function JoinPath(head: string, tail: string): string {
    if tail != [] && tail[0] == '/' then tail
    else if head == [] || head[|head| - 1] == '/' then head + tail
    else head + "/" + tail
  }

  /** ".png" starts at position k of s. */
  predicate PngAt(s: string, k: nat) {
    k + 4 <= |s| && s[k] == '.' && s[k + 1] == 'p' && s[k + 2] == 'n' && s[k + 3] == 'g'
  }

  /** `name.split(".png")[0]`: the text before the first ".png", or all of
      `name` when it has none. */
  function BeforeFirstPng(name: string): (r: string)
    ensures r <= name
  {
    if |name| < 4 then name
    else if PngAt(name, 0) then []
    else [name[0]] + BeforeFirstPng(name[1..])
  }

  /** The backup marker chosen by the conversion type. */
  function BackupSuffix(conversionType: string): string {
    if conversionType == "预乘转直通" then "_premultiplied_to_straight_bak"
    else "_straight_to_premultiplied_bak"
  }

  /** The base name of the backup file. */
  function BackupBase(filename: string, conversionType: string): string {
    BeforeFirstPng(Basename(filename)) + BackupSuffix(conversionType) + ".png"
  }

  /** `new_name`: the backup path of `filename`. */
  function BackupName(filename: string, conversionType: string): string {
    JoinPath(SplitHead(filename), BackupBase(filename, conversionType))
  }

  // ---------------------------------------------------------------------
  // The conversion functions applied to whatever mode the file has

  /** The image has at least one pixel. */
  predicate HasPixel(g: Grid) {
    exists i :: 0 <= i < |g| && g[i] != []
  }

  /** An RGB pixel whose last sample (blue, read as alpha) is neither 0 nor 255. */
  predicate BlueInBetween(p: Pixel) {
    p.b != 0 && p.b != 255
  }

  /** The conversion indexes a channel a pixel does not have: premultiply
      reads channel 3 of every pixel; straight reads the colour channels
      0..2 only of pixels whose last sample is neither 0 nor 255, and an RGB
      pixel has only two samples before its last; a single-sample mode
      cannot be indexed at all. */
  predicate IndexesMissingChannel(p: Picture, conversion: Conversion) {
    match p.mode
    case RGBA => false
    case RGB =>
      if conversion == Premultiply then HasPixel(p.pixels)
      else exists i, j :: 0 <= i < |p.pixels| && 0 <= j < |p.pixels[i]| && BlueInBetween(p.pixels[i][j])
    case OtherMode(_) => HasPixel(p.pixels)
  }

  /** What `conversion_function(Image.open(filename))` gives in `process_image`,
      where no mode gate runs first. */
  function TabConversion(p: Picture, conversion: Conversion): (r: Raises<Picture>)
    ensures r.Raises? ==> r.error == PixelIndex && p.mode != RGBA
    ensures r.Returns? ==> r.value.mode == p.mode && |r.value.pixels| == |p.pixels|
  {
    if IndexesMissingChannel(p, conversion) then Raises(PixelIndex)
    else if p.mode == RGBA then Returns(Picture(RGBA, Convert(conversion, p.pixels)))
    else Returns(p)
  }

  /** The conversion function on an opened image: the pixel loops of
      `premultiply_alpha` / `straight_alpha` for RGBA, and for other modes
      the IndexError the first unindexable pixel raises. */
  method ConvertPicture(img: Picture, conversion: Conversion) returns (r: Raises<Picture>)
    requires Rectangular(img.pixels)
    ensures r == TabConversion(img, conversion)
    ensures r.Returns? ==> Rectangular(r.value.pixels)
  {
    if IndexesMissingChannel(img, conversion) {
      return Raises(PixelIndex);
    }
    if img.mode != RGBA {
      return Returns(img);
    }
    var converted;
    if conversion == Premultiply {
      converted := PremultiplyAlpha(img.pixels);
    } else {
      converted := StraightAlpha(img.pixels);
    }
    r := Returns(Picture(RGBA, converted));
  }

  /** `process_image` completes (and saves) exactly when the file opens and
      the conversion does not raise. */
  predicate Saves(files: map<string, Picture>, filename: string, conversion: Conversion) {
    filename in files && TabConversion(files[filename], conversion).Returns?
  }

  /** The folder after a completed `process_image`: the original under the
      backup name (replacing any earlier backup), the converted image under
      the original name. */
  function AfterSave(files: map<string, Picture>, filename: string, conversion: Conversion,
                     conversionType: string): map<string, Picture>
    requires Saves(files, filename, conversion)
  {
    files[BackupName(filename, conversionType) := files[filename]]
         [filename := TabConversion(files[filename], conversion).value]
  }

  /** The PNG files `process_image` can see: every path `Image.open` reads,
      with its mode and pixels. */
  class PngFolder {
    var files: map<string, Picture>

    predicate Valid()
      reads this
    {
      forall f :: f in files ==> Rectangular(files[f].pixels)
    }

    constructor(files: map<string, Picture>)
      requires forall f :: f in files ==> Rectangular(files[f].pixels)
      ensures Valid() && this.files == files
    {
      this.files := files;
    }

    /** process_image: open and convert; then remove an existing backup,
        rename the original to the backup name and save the result under
        the original name. Any exception leaves the folder as it was. */
    method ProcessImage(filename: string, conversion: Conversion, conversionType: string) returns (saved: bool)
      requires Valid()
      modifies this
      ensures Valid()
      ensures saved == Saves(old(files), filename, conversion)
      ensures files == if saved then AfterSave(old(files), filename, conversion, conversionType) else old(files)
    {
      if filename !in files {
        return false;
      }
      var img := files[filename];
      var final := ConvertPicture(img, conversion);
      if final.Raises? {
        return false;
      }
      var newName := BackupName(filename, conversionType);
      BackupNameDiffers(filename, conversionType);
      if newName in files {
        files := files - {newName};
      }
      files := (files - {filename})[newName := img];
      files := files[filename := final.value];
      saved := true;
      assert files == old(files)[newName := img][filename := final.value];
    }
  }

  // ---------------------------------------------------------------------
  // Lemmas

  /** Stripping leaves nothing or a text not ending in '/', and is idempotent. */
  lemma {:induction false} RStripShape(s: string)
    ensures var t := RStripSlashes(s); t == [] || (t[|t| - 1] != '/' && RStripSlashes(t) == t)
  {
    if s != [] && s[|s| - 1] == '/' {
      RStripShape(s[..|s| - 1]);
    }
  }

  /** The head `os.path.split` gives is empty, ends in '/' (made of slashes
      only) or is a path that stripping leaves alone. */
  lemma SplitHeadShape(p: string)
    ensures var h := SplitHead(p);
      (RStripSlashes(h) == [] && (h == [] || h[|h| - 1] == '/'))
      || (h != [] && h[|h| - 1] != '/' && RStripSlashes(h) == h)
  {
    DirPartAndBasename(p);
    RStripShape(DirPart(p));
  }

  /** `name.split(".png")[0]` is a prefix of the name with no ".png" starting
      inside it, and when it is shorter than the name a ".png" follows it. */
  lemma {:induction false} BeforeFirstPngIsPrefix(name: string)
    ensures var r := BeforeFirstPng(name);
      && r <= name
      && (forall k :: 0 <= k < |r| ==> !PngAt(name, k))
      && (|r| < |name| ==> PngAt(name, |r|))
  {
    if |name| >= 4 && !PngAt(name, 0) {
      var tail := name[1..];
      BeforeFirstPngIsPrefix(tail);
      var rt := BeforeFirstPng(tail);
      forall k | 0 < k <= |rt|
        ensures PngAt(name, k) == PngAt(tail, k - 1)
      {
      }
    }
  }

  /** Neither backup marker nor the extension holds a '/'. */
  lemma SuffixHasNoSlash(conversionType: string)
    ensures '/' !in BackupSuffix(conversionType) + ".png"
  {
    if conversionType == "预乘转直通" {
      assert '/' !in "_premultiplied_to_straight_bak";
    } else {
      assert '/' !in "_straight_to_premultiplied_bak";
    }
    assert '/' !in ".png";
  }

  /** The kept part of the name lies inside the base name, so it holds no '/'. */
  lemma StemHasNoSlash(filename: string)
    ensures '/' !in BeforeFirstPng(Basename(filename))
  {
    var name := Basename(filename);
    var pre := BeforeFirstPng(name);
    BasenameIsLastComponent(filename);
    BeforeFirstPngIsPrefix(name);
    assert forall k :: 0 <= k < |pre| ==> pre[k] == name[k];
  }

  /** The backup's base name is non-empty and holds no '/'. */
  lemma BackupBaseHasNoSlash(filename: string, conversionType: string)
    ensures BackupBase(filename, conversionType) != []
    ensures '/' !in BackupBase(filename, conversionType)
  {
    StemHasNoSlash(filename);
    SuffixHasNoSlash(conversionType);
    var pre, tail := BeforeFirstPng(Basename(filename)), BackupSuffix(conversionType) + ".png";
    assert BackupBase(filename, conversionType) == pre + tail;
  }

  /** Joining, onto an empty head or one ending in '/', a slash-free name. */
  lemma JoinOntoDirectory(h: string, base: string)
    requires RStripSlashes(h) == [] && (h == [] || h[|h| - 1] == '/')
    requires base != [] && '/' !in base
    ensures Basename(JoinPath(h, base)) == base
    ensures SplitHead(JoinPath(h, base)) == h
  {
    assert base[0] != '/';
    assert JoinPath(h, base) == h + base;
    AppendName(h, base);
  }

  /** Joining, onto a head not ending in '/', a slash-free name. */
  lemma JoinOntoName(h: string, base: string)
    requires h != [] && h[|h| - 1] != '/' && RStripSlashes(h) == h
    requires base != [] && '/' !in base
    ensures Basename(JoinPath(h, base)) == base
    ensures SplitHead(JoinPath(h, base)) == h
  {
    assert base[0] != '/';
    var dir := h + "/";
    assert JoinPath(h, base) == dir + base;
    AppendName(dir, base);
    assert dir[..|dir| - 1] == h;
    assert RStripSlashes(dir) == h;
  }

  /** The backup has the derived base name and lies in the same directory:
      `os.path.split` of it gives back the head of the original. */
  lemma BackupNameInSameDirectory(filename: string, conversionType: string)
    ensures Basename(BackupName(filename, conversionType)) == BackupBase(filename, conversionType)
    ensures SplitHead(BackupName(filename, conversionType)) == SplitHead(filename)
  {
    SplitHeadShape(filename);
    BackupBaseHasNoSlash(filename, conversionType);
    var h := SplitHead(filename);
    if RStripSlashes(h) == [] && (h == [] || h[|h| - 1] == '/') {
      JoinOntoDirectory(h, BackupBase(filename, conversionType));
    } else {
      JoinOntoName(h, BackupBase(filename, conversionType));
    }
  }

  /** The backup name is never the original name, so the rename always moves
      the file and the save never overwrites the backup. */
  lemma BackupNameDiffers(filename: string, conversionType: string)
    ensures BackupName(filename, conversionType) != filename
  {
    BackupNameInSameDirectory(filename, conversionType);
    var name := Basename(filename);
    var pre := BeforeFirstPng(name);
    var base := BackupBase(filename, conversionType);
    BeforeFirstPngIsPrefix(name);
    if |pre| < |name| {
      assert name[|pre|] == '.';
      assert base[|pre|] == '_';
    } else {
      assert |base| > |name|;
    }
  }

  /** The second character of the backup marker tells the conversion types apart. */
  lemma SuffixSecondChar(conversionType: string)
    ensures BackupSuffix(conversionType)[1] == if conversionType == "预乘转直通" then 'p' else 's'
  {
  }

  /** The two conversion types give different backup names. */
  lemma BackupSuffixes(filename: string)
    ensures BackupName(filename, "预乘转直通") != BackupName(filename, "直通转预乘")
  {
    var toStraight, toPremultiplied := "预乘转直通", "直通转预乘";
    var pre := BeforeFirstPng(Basename(filename));
    var b1, b2 := BackupBase(filename, toStraight), BackupBase(filename, toPremultiplied);
    assert b1[|pre| + 1] == 'p' by {
      SuffixSecondChar(toStraight);
    }
    assert b2[|pre| + 1] == 's' by {
      assert toPremultiplied[0] != toStraight[0];
      SuffixSecondChar(toPremultiplied);
    }
    BackupNameInSameDirectory(filename, toStraight);
    BackupNameInSameDirectory(filename, toPremultiplied);
  }

  /** A completed run keeps every other file, adds the backup, stores the
      original there and the converted image under the original name. */
  lemma AfterSaveContents(files: map<string, Picture>, filename: string, conversion: Conversion,
                          conversionType: string)
    requires Saves(files, filename, conversion)
    ensures var after := AfterSave(files, filename, conversion, conversionType);
      var backup := BackupName(filename, conversionType);
      && after.Keys == files.Keys + {backup}
      && after[backup] == files[filename]
      && after[filename] == TabConversion(files[filename], conversion).value
      && forall f :: f in files && f != filename && f != backup ==> after[f] == files[f]
  {
    BackupNameDiffers(filename, conversionType);
  }

  /** On RGBA files the tab's conversion is the batch's conversion. */
  lemma TabAgreesWithBatch(p: Picture, conversion: Conversion, path: string)
    requires p.mode == RGBA
    ensures TabConversion(p, conversion) == Returns(Picture(RGBA, Processed(map[path := p], path, conversion)))
  {
  }

  /** Without the mode gate: RGB and single-sample files are given back
      unchanged when they do not raise, and premultiplying any non-empty
      non-RGBA image raises. */
  lemma NonRgbaFiles(p: Picture, conversion: Conversion)
    requires p.mode != RGBA
    ensures TabConversion(p, conversion).Returns? ==> TabConversion(p, conversion).value == p
    ensures conversion == Premultiply && HasPixel(p.pixels) ==> TabConversion(p, conversion) == Raises(PixelIndex)
    ensures p.mode == RGB && conversion == Straight ==>
      (TabConversion(p, conversion).Returns? <==>
        forall i, j :: 0 <= i < |p.pixels| && 0 <= j < |p.pixels[i]| ==> p.pixels[i][j].b in {0, 255})
  {
  }

  /** Worked value: the head and tail `os.path.split` gives for a file in a directory. */
  lemma SplitOfHero()
    ensures SplitHead("art/hero.png") == "art" && Basename("art/hero.png") == "hero.png"
  {
    AppendName("art/", "hero.png");
    assert "art/" + "hero.png" == "art/hero.png";
    assert RStripSlashes("art/") == "art" by {
      assert "art/"[..3] == "art";
    }
  }

  /** Worked value: the backup of a file in a directory, for either
      conversion type. */
  lemma BackupOfHero(conversionType: string)
    ensures BackupName("art/hero.png", conversionType) == "art/" + ("hero" + BackupSuffix(conversionType) + ".png")
  {
    var suffix := BackupSuffix(conversionType);
    assert BeforeFirstPng("hero.png") == "hero" by {
      var n := "hero.png";
      assert n[1..] == "ero.png" && n[1..][1..] == "ro.png" && n[1..][1..][1..] == "o.png";
      assert n[1..][1..][1..][1..] == ".png";
    }
    assert BackupName("art/hero.png", conversionType) == JoinPath("art", "hero" + suffix + ".png") by {
      SplitOfHero();
    }
    assert "art" + "/" == "art/";
  }
}
