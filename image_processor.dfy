/** `src/core/image_processor.py`: the mode gate and output path of
    `process_image_file`, and the success count of `batch_process_images`. */
module ImageProcessor {
  import opened Outcomes
  import opened Paths
  import opened AlphaConversion

  /** The PIL image modes the gate tells apart. */
  datatype Mode = RGBA | RGB | OtherMode(name: string)

  /** An image as `Image.open` reads it. For an RGB image the alpha field of
      each pixel stands for no sample and is never read. */
  datatype Picture = Picture(mode: Mode, pixels: Grid)

  /** The two conversion functions a caller can pass. */
  datatype Conversion = Premultiply | Straight

  /** The image a conversion function returns for an RGBA matrix. */
  function Convert(conversion: Conversion, g: Grid): Grid {
    match conversion
    case Premultiply => MapPixels(g, Premultiplied)
    case Straight => MapPixels(g, Straightened)
  }

  function Opaque(p: Pixel): Pixel {
    p.(a := 255)
  }

  /** The mode gate: RGBA passes as it is, RGB is converted to RGBA, and
      every other mode is rejected. */
  function ModeGate(p: Picture): (r: Option<Grid>)
    ensures r.Some? <==> p.mode == RGBA || p.mode == RGB
    ensures p.mode == RGBA ==> r == Some(p.pixels)
  {
    match p.mode
    case RGBA => Some(p.pixels)
    case RGB => Some(MapPixels(p.pixels, Opaque))
    case OtherMode(_) => None
  }

  /** `process_image_file` returns True exactly when the path opens as an
      image and the gate accepts its mode. */
  predicate Processes(pictures: map<string, Picture>, path: string) {
    path in pictures && (pictures[path].mode == RGBA || pictures[path].mode == RGB)
  }

  /** The image `process_image_file` saves for an accepted path. */
  function Processed(pictures: map<string, Picture>, path: string, conversion: Conversion): Grid
    requires Processes(pictures, path)
  {
    Convert(conversion, ModeGate(pictures[path]).value)
  }

  /** `Path(f"output_{conversion_name}")`: the batch's output directory. */
  function OutputDirName(conversion: Conversion): (r: string)
    ensures r != [] && '/' !in r
  {
    "output_" + (if conversion == Premultiply then "预乘透明" else "直通透明")
  }

  /** `output_dir / file_path.name`. */
  function OutputPath(outputDir: string, path: string): string {
    outputDir + "/" + Basename(path)
  }

  /** The number of paths `process_image_file` succeeds on. */
  function SuccessCount(pictures: map<string, Picture>, paths: seq<string>): nat {
    if paths == [] then 0
    else SuccessCount(pictures, paths[..|paths| - 1]) + (if Processes(pictures, paths[|paths| - 1]) then 1 else 0)
  }

  /** The saved outputs after processing `paths` one after another. */
  function WrittenAll(outputs: map<string, Grid>, pictures: map<string, Picture>, paths: seq<string>,
                      outputDir: string, conversion: Conversion): map<string, Grid>
  {
    if paths == [] then outputs
    else
      var before := WrittenAll(outputs, pictures, paths[..|paths| - 1], outputDir, conversion);
      var path := paths[|paths| - 1];
      if Processes(pictures, path) then before[OutputPath(outputDir, path) := Processed(pictures, path, conversion)]
      else before
  }

  /** The image files the core can see (`pictures`: every path `Image.open`
      reads, with its mode and pixels) and the files it saves (`outputs`). */
  class ImageFolder {
    var pictures: map<string, Picture>
    var outputs: map<string, Grid>

    /** Every image PIL opens has a rectangular pixel matrix. */
    predicate Valid()
      reads this
    {
      forall path :: path in pictures ==> Rectangular(pictures[path].pixels)
    }

    constructor(pictures: map<string, Picture>)
      requires forall path :: path in pictures ==> Rectangular(pictures[path].pixels)
      ensures Valid()
      ensures this.pictures == pictures && outputs == map[]
    {
      this.pictures := pictures;
      outputs := map[];
    }

    /** process_image_file: open, gate on the mode, convert and save under
        the output directory; any failure returns False and saves nothing. */
    method ProcessImageFile(path: string, outputDir: string, conversion: Conversion) returns (ok: bool)
      requires Valid()
      modifies this`outputs
      ensures ok == Processes(pictures, path)
      ensures outputs == if ok then old(outputs)[OutputPath(outputDir, path) := Processed(pictures, path, conversion)]
                         else old(outputs)
    {
      if path !in pictures {
        return false;
      }
      var img := pictures[path];
      var rgba := img.pixels;
      if img.mode != RGBA {
        if img.mode == RGB {
          rgba := MapPixels(img.pixels, Opaque);
        } else {
          return false;
        }
      }
      var processed;
      if conversion == Premultiply {
        processed := PremultiplyAlpha(rgba);
      } else {
        processed := StraightAlpha(rgba);
      }
      outputs := outputs[OutputPath(outputDir, path) := processed];
      ok := true;
    }

    /** batch_process_images: process every path into the conversion's output
        directory and count the successes. */
    method BatchProcessImages(paths: seq<string>, conversion: Conversion) returns (successCount: nat)
      requires Valid()
      modifies this`outputs
      ensures successCount == SuccessCount(pictures, paths) <= |paths|
      ensures outputs == WrittenAll(old(outputs), pictures, paths, OutputDirName(conversion), conversion)
    {
      var outputDir := OutputDirName(conversion);
      successCount := 0;
      var i := 0;
      while i < |paths|
        invariant 0 <= i <= |paths|
        invariant successCount == SuccessCount(pictures, paths[..i])
        invariant outputs == WrittenAll(old(outputs), pictures, paths[..i], outputDir, conversion)
      {
        var result := ProcessImageFile(paths[i], outputDir, conversion);
        if result {
          successCount := successCount + 1;
        }
        assert paths[..i + 1][..i] == paths[..i];
        i := i + 1;
      }
      assert paths[..i] == paths;
      SuccessCountBounds(pictures, paths);
    }
  }

  // ---------------------------------------------------------------------
  // Lemmas

  /** The count is at most the number of paths, reaches it exactly when
      every path is processed, and is zero exactly when none is. */
  lemma {:induction false} SuccessCountBounds(pictures: map<string, Picture>, paths: seq<string>)
    ensures SuccessCount(pictures, paths) <= |paths|
    ensures SuccessCount(pictures, paths) == |paths| <==> forall k :: 0 <= k < |paths| ==> Processes(pictures, paths[k])
    ensures SuccessCount(pictures, paths) == 0 <==> forall k :: 0 <= k < |paths| ==> !Processes(pictures, paths[k])
  {
    if paths != [] {
      var init := paths[..|paths| - 1];
      SuccessCountBounds(pictures, init);
      assert forall k :: 0 <= k < |init| ==> init[k] == paths[k];
    }
  }

  /** The output keeps the input's base name and sits directly in the output directory. */
  lemma OutputPathParts(outputDir: string, path: string)
    ensures Basename(OutputPath(outputDir, path)) == Basename(path)
    ensures DirPart(OutputPath(outputDir, path)) == outputDir + "/"
  {
    BasenameIsLastComponent(path);
    AppendName(outputDir + "/", Basename(path));
    assert outputDir + "/" + Basename(path) == (outputDir + "/") + Basename(path);
  }

  /** The batch saves exactly one output name per processed path (later
      paths with the same base name overwrite earlier ones). */
  lemma {:induction false} WrittenAllKeys(outputs: map<string, Grid>, pictures: map<string, Picture>,
                                          paths: seq<string>, outputDir: string, conversion: Conversion)
    ensures WrittenAll(outputs, pictures, paths, outputDir, conversion).Keys ==
      outputs.Keys + set k | 0 <= k < |paths| && Processes(pictures, paths[k]) :: OutputPath(outputDir, paths[k])
  {
    if paths != [] {
      var init := paths[..|paths| - 1];
      WrittenAllKeys(outputs, pictures, init, outputDir, conversion);
      assert forall k :: 0 <= k < |init| ==> init[k] == paths[k];
      var last := |paths| - 1;
      var before := set k | 0 <= k < |init| && Processes(pictures, init[k]) :: OutputPath(outputDir, init[k]);
      var after := set k | 0 <= k < |paths| && Processes(pictures, paths[k]) :: OutputPath(outputDir, paths[k]);
      if Processes(pictures, paths[last]) {
        assert after == before + {OutputPath(outputDir, paths[last])};
      } else {
        assert after == before;
      }
    }
  }

  /** A processed path whose output name no later path reuses ends up with
      its own converted image. */
  lemma {:induction false} WrittenAllLast(outputs: map<string, Grid>, pictures: map<string, Picture>,
                                          paths: seq<string>, outputDir: string, conversion: Conversion, k: nat)
    requires k < |paths| && Processes(pictures, paths[k])
    requires forall m :: k < m < |paths| ==> OutputPath(outputDir, paths[m]) != OutputPath(outputDir, paths[k])
    ensures var written := WrittenAll(outputs, pictures, paths, outputDir, conversion);
      OutputPath(outputDir, paths[k]) in written
      && written[OutputPath(outputDir, paths[k])] == Processed(pictures, paths[k], conversion)
  {
    var init := paths[..|paths| - 1];
    if k < |paths| - 1 {
      assert forall m :: 0 <= m < |init| ==> init[m] == paths[m];
      WrittenAllLast(outputs, pictures, init, outputDir, conversion, k);
    }
  }

  /** `img.convert('RGBA')` of an RGB image keeps its shape and colour and
      makes every pixel opaque. */
  lemma RgbBecomesOpaque(p: Picture)
    requires p.mode == RGB
    ensures var g := ModeGate(p).value;
      && |g| == |p.pixels| && Width(g) == Width(p.pixels)
      && forall i, j :: 0 <= i < |p.pixels| && 0 <= j < |p.pixels[i]| ==>
           |g[i]| == |p.pixels[i]| && g[i][j] == Pixel(p.pixels[i][j].r, p.pixels[i][j].g, p.pixels[i][j].b, 255)
  {
  }

  /** The two batches write to different directories. */
  lemma OutputDirsDiffer()
    ensures OutputDirName(Premultiply) != OutputDirName(Straight)
  {
    assert OutputDirName(Premultiply)[7] != OutputDirName(Straight)[7];
  }
}
