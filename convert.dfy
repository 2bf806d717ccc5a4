/**
 * The orchestration in main and the per-sample write in write_pgm_image.
 * WriteSpec, LoopSpec and RunSpec say what one write, the sample loop and a
 * whole run do to the filesystem; WritePgmImage and Run carry them out
 * through a Disk, and the lemmas state what a run promises.
 */
module Convert {
  import opened Wrappers
  import opened Errors
  import opened Text
  import opened Idx
  import opened Pgm
  import opened Paths
  import opened FileSystem

  /** The outcome of a step together with the filesystem it leaves. */
  datatype Step = Step(outcome: Outcome, fs: Fs)

  /** The errors that can only come from the sample loop. */
  predicate IsOutputError(e: Error)
  {
    e in {DirectoryPathTooLong, FilenameTooLong, FilePathTooLong, DirectoryCreateError, ImageFileOpenError, ImageWriteError}
  }

  // ---------------------------------------------------------------- slicing

  /** Where sample i's image starts in the pixel buffer: i * width * height, the offset main takes for current_image. */
  function BlockStart(images: ImageSet, i: nat): nat
  {
    i * images.width * images.height
  }

  /** Consecutive samples' images start one block apart. */
  lemma NextBlockStart(images: ImageSet, i: nat)
    ensures BlockStart(images, i + 1) == BlockStart(images, i) + images.BlockSize()
  {
    var w, h := images.width, images.height;
    assert (i + 1) * w * h == i * w * h + w * h;
  }

  /** Every sample's image lies inside the buffer. */
  lemma BlockBounds(images: ImageSet, i: nat)
    requires images.Valid() && i < images.count
    ensures BlockStart(images, i) + images.BlockSize() <= |images.pixels|
  {
    var s := images.BlockSize();
    NextBlockStart(images, i);
    assert BlockStart(images, i + 1) == (i + 1) * s;
    assert images.count * images.height * images.width == images.count * s;
    assert (i + 1) * s <= images.count * s;
  }

  /** Sample i's image: the width * height bytes that &images[i * width * height] points to. */
  function Block(images: ImageSet, i: nat): (b: seq<byte>)
    requires images.Valid() && i < images.count
    ensures |b| == images.BlockSize()
  {
    BlockBounds(images, i);
    images.pixels[BlockStart(images, i)..BlockStart(images, i) + images.BlockSize()]
  }

  /** The images of samples 0 .. k-1, one after another. */
  function Blocks(images: ImageSet, k: nat): seq<byte>
    requires images.Valid() && k <= images.count
  {
    if k == 0 then [] else Blocks(images, k - 1) + Block(images, k - 1)
  }

  /**
   * The sample images tile the buffer: in order, without gaps or overlap,
   * the first k of them are exactly its first k * width * height bytes.
   */
  lemma {:induction false} BlocksTile(images: ImageSet, k: nat)
    requires images.Valid() && k <= images.count
    ensures BlockStart(images, k) <= |images.pixels|
    ensures Blocks(images, k) == images.pixels[..BlockStart(images, k)]
  {
    var px := images.pixels;
    if k == 0 {
      assert BlockStart(images, 0) == 0;
    } else {
      BlocksTile(images, k - 1);
      BlockBounds(images, k - 1);
      NextBlockStart(images, k - 1);
      var lo, hi := BlockStart(images, k - 1), BlockStart(images, k);
      assert Blocks(images, k) == px[..lo] + px[lo..hi];
      assert px[..hi] == px[..lo] + px[lo..hi];
    }
  }

  /** All samples together are the whole buffer. */
  lemma BlocksCoverBuffer(images: ImageSet)
    requires images.Valid()
    ensures Blocks(images, images.count) == images.pixels
  {
    BlocksTile(images, images.count);
    assert BlockStart(images, images.count) == |images.pixels|;
  }

  // ------------------------------------------------------ write_pgm_image

  /**
   * The second half of write_pgm_image: fopen the composed path for
   * writing, fprintf the header (its result unchecked) and fwrite the image.
   */
  function SaveSpec(env: Env, fs: Fs, path: string, image: seq<byte>, width: nat, height: nat): (r: Step)
    ensures r.fs.dirs == fs.dirs
    ensures r.outcome == Pass <==> path !in env.openFails && path !in env.writeFails
    ensures r.outcome.Fail? ==> r.outcome.error in {ImageFileOpenError, ImageWriteError}
    ensures r.outcome == Fail(ImageFileOpenError) <==> path in env.openFails
    ensures r.outcome == Fail(ImageFileOpenError) ==> r.fs.files == fs.files
    ensures r.outcome == Fail(ImageWriteError) ==> r.fs.files == fs.files[path := []]
    ensures r.outcome == Pass ==> r.fs.files == fs.files[path := Encode(width, height, image)]
  {
    if path in env.openFails then Step(Fail(ImageFileOpenError), fs)
    else if path in env.writeFails then Step(Fail(ImageWriteError), fs.(files := fs.files[path := []]))
    else Step(Pass, fs.(files := fs.files[path := Encode(width, height, image)]))
  }

  method SaveImage(disk: Disk, path: string, image: seq<byte>, width: nat, height: nat) returns (r: Outcome)
    modifies disk
    ensures Step(r, disk.State()) == SaveSpec(disk.env, old(disk.State()), path, image, width, height)
  {
    var created := disk.Create(path);
    if !created {
      return Fail(ImageFileOpenError);
    }
    var written := WriteContents(disk, path, Header(width, height), image);
    if !written {
      return Fail(ImageWriteError);
    }
    return Pass;
  }

  /**
   * fprintf of the header (its result unchecked), then fwrite of the image,
   * to the file just opened; a failing write shows up at the fwrite.
   */
  method WriteContents(disk: Disk, path: string, header: seq<byte>, image: seq<byte>) returns (ok: bool)
    requires path in disk.files && disk.files[path] == []
    modifies disk
    ensures ok <==> path !in disk.env.writeFails
    ensures disk.dirs == old(disk.dirs)
    ensures disk.files == old(disk.files)[path := if ok then header + image else []]
  {
    ghost var before := disk.files;
    var headerWritten := disk.Append(path, header);
    ok := disk.Append(path, image);
    if ok {
      assert [] + header + image == header + image;
      assert disk.files == before[path := header + image];
    } else {
      assert disk.files == before == before[path := []];
    }
  }

  /**
   * write_pgm_image(directory, filename, image): create the directory if it
   * is missing, compose the path with strlcpy and strlcat, then save the file.
   */
  function WriteSpec(env: Env, fs: Fs, directory: string, filename: string, image: seq<byte>,
                     width: nat, height: nat): (r: Step)
    ensures r.outcome == Fail(DirectoryCreateError) <==> directory !in fs.dirs && directory in env.mkdirFails
    ensures r.outcome == Fail(DirectoryCreateError) ==> r.fs == fs
    ensures r.outcome != Fail(DirectoryCreateError) ==> r.fs.dirs == fs.dirs + {directory}
    ensures r.outcome.Fail? ==> IsOutputError(r.outcome.error)
    ensures r.outcome == Pass <==>
              (directory in fs.dirs || directory !in env.mkdirFails) &&
              |directory + filename| < MAX_PATH &&
              directory + filename !in env.openFails && directory + filename !in env.writeFails
    ensures r.outcome == Pass ==>
              directory in r.fs.dirs && r.fs.files == fs.files[directory + filename := Encode(width, height, image)]
    ensures MAX_PATH <= |directory + filename| ==> r.fs.files == fs.files
    ensures r.fs.files.Keys <= fs.files.Keys + {directory + filename}
    ensures forall p | p in fs.files && p != directory + filename :: p in r.fs.files && r.fs.files[p] == fs.files[p]
  {
    if directory !in fs.dirs && directory in env.mkdirFails then Step(Fail(DirectoryCreateError), fs)
    else
      var made := fs.(dirs := fs.dirs + {directory});
      var copied := BoundedCopy(directory, MAX_PATH);
      if copied.length >= MAX_PATH then Step(Fail(DirectoryPathTooLong), made)
      else
        var path := StrlCat(copied.text, filename, MAX_PATH);
        if path.length >= MAX_PATH then Step(Fail(FilePathTooLong), made)
        else SaveSpec(env, made, path.text, image, width, height)
  }

  method WritePgmImage(disk: Disk, directory: string, filename: string, image: seq<byte>,
                       width: nat, height: nat) returns (r: Outcome)
    requires |image| == width * height
    modifies disk
    ensures Step(r, disk.State()) == WriteSpec(disk.env, old(disk.State()), directory, filename, image, width, height)
  {
    if !disk.IsDirectory(directory) {
      var made := disk.MakeDirectory(directory);
      if !made {
        return Fail(DirectoryCreateError);
      }
    }
    var path := BoundedCopy(directory, MAX_PATH);
    if path.length >= MAX_PATH {
      return Fail(DirectoryPathTooLong);
    }
    path := StrlCat(path.text, filename, MAX_PATH);
    if path.length >= MAX_PATH {
      return Fail(FilePathTooLong);
    }
    r := SaveImage(disk, path.text, image, width, height);
  }

  /**
   * Where no call into the system fails, a write whose path fits succeeds:
   * the directory exists afterwards and the file holds the graymap.
   */
  lemma ReliableWrite(fs: Fs, directory: string, filename: string, image: seq<byte>, width: nat, height: nat)
    requires |directory + filename| < MAX_PATH
    ensures WriteSpec(Reliable, fs, directory, filename, image, width, height) ==
            Step(Pass, Fs(fs.dirs + {directory}, fs.files[directory + filename := Encode(width, height, image)]))
  {
  }

  // ------------------------------------------------------------ main loop

  /** Parsed labels and images that agree in number, as main's count comparison requires. */
  predicate Consistent(labels: seq<byte>, images: ImageSet)
  {
    images.Valid() && |labels| == images.count
  }

  /**
   * The loop of main from sample `i` on: compose "<out>/<label>/" and
   * "image<i>.pgm" with snprintf, stop if either does not fit, and write the
   * sample; the first failure ends the run.
   */
  function LoopSpec(env: Env, fs: Fs, out: string, labels: seq<byte>, images: ImageSet, i: nat): (r: Step)
    requires Consistent(labels, images) && i <= images.count
    ensures fs.dirs <= r.fs.dirs
    ensures fs.files.Keys <= r.fs.files.Keys
    ensures r.outcome.Fail? ==> IsOutputError(r.outcome.error)
    decreases images.count - i
  {
    if i == images.count then Step(Pass, fs)
    else
      var directory := BoundedCopy(DirectoryText(out, labels[i]), MAX_PATH);
      if directory.length >= MAX_PATH then Step(Fail(DirectoryPathTooLong), fs)
      else
        var filename := BoundedCopy(FilenameText(i), MAX_PATH);
        if filename.length >= MAX_PATH then Step(Fail(FilenameTooLong), fs)
        else
          var written := WriteSpec(env, fs, directory.text, filename.text, Block(images, i), images.width, images.height);
          if written.outcome.Fail? then written
          else LoopSpec(env, written.fs, out, labels, images, i + 1)
  }

  /** The paths of samples k .. count-1. */
  function SamplePaths(out: string, labels: seq<byte>, k: nat): set<string>
  {
    set j | k <= j < |labels| :: SamplePath(out, labels[j], j)
  }

  /** The label directories of samples k .. count-1. */
  function SampleDirectories(out: string, labels: seq<byte>, k: nat): set<string>
  {
    set j | k <= j < |labels| :: DirectoryText(out, labels[j])
  }

  /**
   * A loop that runs to the end has written every sample from `k` on at its
   * own path, as a graymap of its image, and has left every other file as
   * it was.
   */
  lemma {:induction false} LoopWritesEverySample(env: Env, fs: Fs, out: string, labels: seq<byte>, images: ImageSet, k: nat)
    requires Consistent(labels, images) && k <= images.count
    requires LoopSpec(env, fs, out, labels, images, k).outcome == Pass
    ensures var files := LoopSpec(env, fs, out, labels, images, k).fs.files;
            (forall i | k <= i < images.count ::
               SamplePath(out, labels[i], i) in files &&
               files[SamplePath(out, labels[i], i)] == Encode(images.width, images.height, Block(images, i))) &&
            files.Keys <= fs.files.Keys + SamplePaths(out, labels, k) &&
            (forall p | p in fs.files && p !in SamplePaths(out, labels, k) :: files[p] == fs.files[p])
    decreases images.count - k
  {
    if k < images.count {
      var path := SamplePath(out, labels[k], k);
      PassingLoopPathFits(env, fs, out, labels, images, k);
      LoopUnfold(env, fs, out, labels, images, k);
      var step := WriteSpec(env, fs, DirectoryText(out, labels[k]), FilenameText(k), Block(images, k),
                            images.width, images.height);
      LoopWritesEverySample(env, step.fs, out, labels, images, k + 1);
      SamplePathsSplit(out, labels, k);
    }
  }

  /**
   * A loop that runs to the end has created exactly the label directories
   * of the samples from `k` on, and no other directory.
   */
  lemma {:induction false} LoopMakesSampleDirectories(env: Env, fs: Fs, out: string, labels: seq<byte>, images: ImageSet, k: nat)
    requires Consistent(labels, images) && k <= images.count
    requires LoopSpec(env, fs, out, labels, images, k).outcome == Pass
    ensures LoopSpec(env, fs, out, labels, images, k).fs.dirs == fs.dirs + SampleDirectories(out, labels, k)
    decreases images.count - k
  {
    if k < images.count {
      PassingLoopPathFits(env, fs, out, labels, images, k);
      LoopUnfold(env, fs, out, labels, images, k);
      var step := WriteSpec(env, fs, DirectoryText(out, labels[k]), FilenameText(k), Block(images, k),
                            images.width, images.height);
      assert step.outcome == Pass && step.fs.dirs == fs.dirs + {DirectoryText(out, labels[k])};
      LoopMakesSampleDirectories(env, step.fs, out, labels, images, k + 1);
      SampleDirectoriesSplit(out, labels, k);
    }
  }

  lemma SampleDirectoriesSplit(out: string, labels: seq<byte>, k: nat)
    requires k < |labels|
    ensures SampleDirectories(out, labels, k) == {DirectoryText(out, labels[k])} + SampleDirectories(out, labels, k + 1)
  {
  }

  /** The paths from k on are sample k's path and, apart from it, the paths from k + 1 on. */
  lemma SamplePathsSplit(out: string, labels: seq<byte>, k: nat)
    requires k < |labels|
    ensures SamplePaths(out, labels, k) == {SamplePath(out, labels[k], k)} + SamplePaths(out, labels, k + 1)
    ensures SamplePath(out, labels[k], k) !in SamplePaths(out, labels, k + 1)
  {
    var path := SamplePath(out, labels[k], k);
    forall j | k + 1 <= j < |labels| ensures SamplePath(out, labels[j], j) != path {
      if SamplePath(out, labels[j], j) == path {
        SamplePathInjective(out, labels[j], j, labels[k], k);
      }
    }
  }

  /** A loop that gets past sample k found its path short enough. */
  lemma PassingLoopPathFits(env: Env, fs: Fs, out: string, labels: seq<byte>, images: ImageSet, k: nat)
    requires Consistent(labels, images) && k < images.count
    ensures LoopSpec(env, fs, out, labels, images, k).outcome == Pass ==> |SamplePath(out, labels[k], k)| < MAX_PATH
  {
    FilenameFits(k);
  }

  /** One turn of the loop for a sample whose path fits: the snprintf checks pass and the sample is written. */
  lemma LoopUnfold(env: Env, fs: Fs, out: string, labels: seq<byte>, images: ImageSet, k: nat)
    requires Consistent(labels, images) && k < images.count
    requires |SamplePath(out, labels[k], k)| < MAX_PATH
    ensures var step := WriteSpec(env, fs, DirectoryText(out, labels[k]), FilenameText(k), Block(images, k),
                                  images.width, images.height);
            LoopSpec(env, fs, out, labels, images, k) ==
              if step.outcome.Fail? then step else LoopSpec(env, step.fs, out, labels, images, k + 1)
  {
    FilenameFits(k);
  }

  /**
   * Where no call into the system fails, the loop runs to the end exactly
   * when every sample's path fits in MAX_PATH.
   */
  lemma {:induction false} LoopPassesIffPathsFit(fs: Fs, out: string, labels: seq<byte>, images: ImageSet, k: nat)
    requires Consistent(labels, images) && k <= images.count
    ensures LoopSpec(Reliable, fs, out, labels, images, k).outcome == Pass <==> PathsFit(out, labels, k)
    decreases images.count - k
  {
    if k < images.count {
      PathsFitSplit(out, labels, k);
      if |SamplePath(out, labels[k], k)| < MAX_PATH {
        LoopUnfold(Reliable, fs, out, labels, images, k);
        var step := WriteSpec(Reliable, fs, DirectoryText(out, labels[k]), FilenameText(k), Block(images, k),
                              images.width, images.height);
        assert step.outcome == Pass;
        LoopPassesIffPathsFit(step.fs, out, labels, images, k + 1);
      } else {
        PathTooLongStopsBeforeWriting(Reliable, fs, out, labels, images, k);
      }
    }
  }

  /** Every sample's path from k on fits in MAX_PATH. */
  predicate PathsFit(out: string, labels: seq<byte>, k: nat)
  {
    forall i | k <= i < |labels| :: |SamplePath(out, labels[i], i)| < MAX_PATH
  }

  lemma PathsFitSplit(out: string, labels: seq<byte>, k: nat)
    requires k < |labels|
    ensures PathsFit(out, labels, k) <==> |SamplePath(out, labels[k], k)| < MAX_PATH && PathsFit(out, labels, k + 1)
  {
  }

  /** A sample whose path does not fit stops the loop there, before its file is written. */
  lemma PathTooLongStopsBeforeWriting(env: Env, fs: Fs, out: string, labels: seq<byte>, images: ImageSet, k: nat)
    requires Consistent(labels, images) && k < images.count
    requires MAX_PATH <= |SamplePath(out, labels[k], k)|
    ensures var r := LoopSpec(env, fs, out, labels, images, k);
            r.outcome in {Fail(DirectoryPathTooLong), Fail(FilePathTooLong), Fail(DirectoryCreateError)} &&
            r.fs.files == fs.files
    ensures MAX_PATH <= |DirectoryText(out, labels[k])| ==>
              LoopSpec(env, fs, out, labels, images, k) == Step(Fail(DirectoryPathTooLong), fs)
  {
    FilenameFits(k);
  }

  // ----------------------------------------------------------------- main

  /**
   * A whole run of main: read the label file, then the image file, check
   * that they agree in number and that the output directory exists, then
   * run the sample loop. A file that could not be opened is None.
   */
  function RunSpec(env: Env, fs: Fs, labelsFile: Option<seq<byte>>, imagesFile: Option<seq<byte>>, out: string): (r: Step)
    ensures r.outcome.Fail? && !IsOutputError(r.outcome.error) ==> r.fs == fs
  {
    if labelsFile.None? then Step(Fail(LabelsFileOpenError), fs)
    else
      match ParseLabels(labelsFile.value)
      case Failure(e) => Step(Fail(e), fs)
      case Success(labels) =>
        if imagesFile.None? then Step(Fail(ImagesFileOpenError), fs)
        else
          match ParseImages(imagesFile.value)
          case Failure(e) => Step(Fail(e), fs)
          case Success(images) =>
            if images.count != |labels| then Step(Fail(CountMismatch), fs)
            else if out !in fs.dirs then Step(Fail(MissingOutputDirectory), fs)
            else LoopSpec(env, fs, out, labels, images, 0)
  }

  method Run(disk: Disk, labelsFile: Option<seq<byte>>, imagesFile: Option<seq<byte>>, out: string) returns (r: Outcome)
    modifies disk
    ensures Step(r, disk.State()) == RunSpec(disk.env, old(disk.State()), labelsFile, imagesFile, out)
  {
    if labelsFile.None? {
      return Fail(LabelsFileOpenError);
    }
    var parsedLabels := ParseLabels(labelsFile.value);
    if parsedLabels.Failure? {
      return Fail(parsedLabels.error);
    }
    var labels := parsedLabels.value;
    if imagesFile.None? {
      return Fail(ImagesFileOpenError);
    }
    var parsedImages := ParseImages(imagesFile.value);
    if parsedImages.Failure? {
      return Fail(parsedImages.error);
    }
    var images := parsedImages.value;
    if images.count != |labels| {
      return Fail(CountMismatch);
    }
    if !disk.IsDirectory(out) {
      return Fail(MissingOutputDirectory);
    }
    ghost var start := disk.State();
    var i := 0;
    while i < images.count
      invariant 0 <= i <= images.count
      invariant LoopSpec(disk.env, start, out, labels, images, 0) == LoopSpec(disk.env, disk.State(), out, labels, images, i)
      decreases images.count - i
    {
      var current := Block(images, i);
      var directory := BoundedCopy(DirectoryText(out, labels[i]), MAX_PATH);
      if directory.length >= MAX_PATH {
        return Fail(DirectoryPathTooLong);
      }
      var filename := BoundedCopy(FilenameText(i), MAX_PATH);
      if filename.length >= MAX_PATH {
        return Fail(FilenameTooLong);
      }
      var written := WritePgmImage(disk, directory.text, filename.text, current, images.width, images.height);
      if written.Fail? {
        return written;
      }
      i := i + 1;
    }
    return Pass;
  }

  // ------------------------------------------------------ what a run promises

  /**
   * Once both files parse, the run reports a count mismatch exactly when
   * their counts differ, and then it has created no directory and no file.
   */
  lemma CountMismatchWritesNothing(env: Env, fs: Fs, labelsFile: seq<byte>, imagesFile: seq<byte>, out: string,
                                   labels: seq<byte>, images: ImageSet)
    requires ParseLabels(labelsFile) == Success(labels) && ParseImages(imagesFile) == Success(images)
    ensures var r := RunSpec(env, fs, Some(labelsFile), Some(imagesFile), out);
            (r.outcome == Fail(CountMismatch) <==> |labels| != images.count) &&
            (r.outcome == Fail(CountMismatch) ==> r.fs == fs)
  {
  }

  /** Swapping the two input files is caught by the label file's magic number, before anything is written. */
  lemma SwappedInputsRejected(env: Env, fs: Fs, labels: seq<byte>, images: ImageSet, out: string)
    requires |labels| < TWO_31 && images.Valid()
    ensures RunSpec(env, fs, Some(ImageFile(images)), Some(LabelFile(labels)), out) == Step(Fail(NotALabelFile), fs)
  {
    ImageFileIsNotALabelFile(images);
  }

  /**
   * A run that succeeds has written, for every sample i, the file
   * "<out>/<label i>/image<i>.pgm", and reading that file back gives the
   * image's width, height, 255 and exactly its pixels; no other file changed,
   * and the directories added are exactly the samples' label directories.
   */
  lemma RunWritesEverySample(env: Env, fs: Fs, labelsFile: seq<byte>, imagesFile: seq<byte>, out: string,
                             labels: seq<byte>, images: ImageSet)
    requires ParseLabels(labelsFile) == Success(labels) && ParseImages(imagesFile) == Success(images)
    requires RunSpec(env, fs, Some(labelsFile), Some(imagesFile), out).outcome == Pass
    ensures Consistent(labels, images) && out in fs.dirs
    ensures var files := RunSpec(env, fs, Some(labelsFile), Some(imagesFile), out).fs.files;
            (forall i | 0 <= i < images.count ::
               SamplePath(out, labels[i], i) in files &&
               files[SamplePath(out, labels[i], i)] == Encode(images.width, images.height, Block(images, i)) &&
               Decode(files[SamplePath(out, labels[i], i)]) == Some(Image(images.width, images.height, MAX_GRAY, Block(images, i)))) &&
            files.Keys <= fs.files.Keys + SamplePaths(out, labels, 0) &&
            (forall p | p in fs.files && p !in SamplePaths(out, labels, 0) :: files[p] == fs.files[p])
    ensures RunSpec(env, fs, Some(labelsFile), Some(imagesFile), out).fs.dirs == fs.dirs + SampleDirectories(out, labels, 0)
  {
    LoopWritesEverySample(env, fs, out, labels, images, 0);
    LoopMakesSampleDirectories(env, fs, out, labels, images, 0);
    forall i | 0 <= i < images.count
      ensures Decode(Encode(images.width, images.height, Block(images, i))) ==
              Some(Image(images.width, images.height, MAX_GRAY, Block(images, i)))
    {
      DecodeEncode(images.width, images.height, Block(images, i));
    }
  }

  /**
   * Where no call into the system fails and both files parse, a run succeeds
   * exactly when the counts agree, the output directory exists and every
   * sample's path fits in MAX_PATH.
   */
  lemma RunSucceedsIff(fs: Fs, labelsFile: seq<byte>, imagesFile: seq<byte>, out: string,
                       labels: seq<byte>, images: ImageSet)
    requires ParseLabels(labelsFile) == Success(labels) && ParseImages(imagesFile) == Success(images)
    ensures RunSpec(Reliable, fs, Some(labelsFile), Some(imagesFile), out).outcome == Pass <==>
            |labels| == images.count && out in fs.dirs && PathsFit(out, labels, 0)
  {
    if |labels| == images.count && out in fs.dirs {
      LoopPassesIffPathsFit(fs, out, labels, images, 0);
    }
  }

  // The two-sample run: labels 3 and 7, two 2x2 images.
  const EXAMPLE_LABELS: seq<byte> := [0, 0, 8, 1, 0, 0, 0, 2, 3, 7]
  const EXAMPLE_IMAGES: seq<byte> := [0, 0, 8, 3, 0, 0, 0, 2, 0, 0, 0, 2, 0, 0, 0, 2,
                                      10, 20, 30, 40, 50, 60, 70, 80]

  lemma ExampleLabelsParse()
    ensures ParseLabels(EXAMPLE_LABELS) == Success([3, 7])
  {
    assert U32At(EXAMPLE_LABELS, 0) == LABEL_MAGIC && U32At(EXAMPLE_LABELS, 4) == 2;
    assert EXAMPLE_LABELS[8..10] == [3, 7];
  }

  lemma ExampleImageHeader()
    ensures ParseImageHeader(EXAMPLE_IMAGES) == Success(Dimensions(2, 2, 2))
  {
    assert U32At(EXAMPLE_IMAGES, 0) == IMAGE_MAGIC && U32At(EXAMPLE_IMAGES, 4) == 2;
    assert U32At(EXAMPLE_IMAGES, 8) == 2 && U32At(EXAMPLE_IMAGES, 12) == 2;
  }

  lemma ExampleImagesParse()
    ensures ParseImages(EXAMPLE_IMAGES) == Success(ImageSet(2, 2, 2, [10, 20, 30, 40, 50, 60, 70, 80]))
  {
    ExampleImageHeader();
    assert Volume(Dimensions(2, 2, 2)) == 8;
    assert EXAMPLE_IMAGES[16..24] == [10, 20, 30, 40, 50, 60, 70, 80];
  }

  lemma ExampleDecimals()
    ensures Decimal(0) == "0" && Decimal(1) == "1" && Decimal(2) == "2"
    ensures Decimal(3) == "3" && Decimal(7) == "7" && Decimal(MAX_GRAY) == "255"
  {
    assert Decimal(25) == "25";
  }

  lemma ExampleHeader()
    ensures Header(2, 2) == [80, 53, 32, 50, 32, 50, 32, 50, 53, 53, 10]
  {
    ExampleDecimals();
    assert Ascii(MAGIC) == [80, 53];
    assert Ascii("2") == [50];
    assert Ascii("255") == [50, 53, 53];
  }

  lemma ExampleEncodings()
    ensures Encode(2, 2, [10, 20, 30, 40]) == [80, 53, 32, 50, 32, 50, 32, 50, 53, 53, 10, 10, 20, 30, 40]
    ensures Encode(2, 2, [50, 60, 70, 80]) == [80, 53, 32, 50, 32, 50, 32, 50, 53, 53, 10, 50, 60, 70, 80]
  {
    ExampleHeader();
  }

  lemma ExamplePaths()
    ensures SamplePath("outdir", 3, 0) == "outdir/3/image0.pgm" && DirectoryText("outdir", 3) == "outdir/3/"
    ensures SamplePath("outdir", 7, 1) == "outdir/7/image1.pgm" && DirectoryText("outdir", 7) == "outdir/7/"
    ensures FilenameText(0) == "image0.pgm" && FilenameText(1) == "image1.pgm"
  {
    ExampleDecimals();
  }

  lemma ExampleBlocks()
    ensures var images := ImageSet(2, 2, 2, [10, 20, 30, 40, 50, 60, 70, 80]);
            images.Valid() && Block(images, 0) == [10, 20, 30, 40] && Block(images, 1) == [50, 60, 70, 80]
  {
    var images := ImageSet(2, 2, 2, [10, 20, 30, 40, 50, 60, 70, 80]);
    assert BlockStart(images, 0) == 0 && BlockStart(images, 1) == 4 && images.BlockSize() == 4;
  }

  lemma ExampleRunIsLoop()
    ensures RunSpec(Reliable, Fs({"outdir"}, map[]), Some(EXAMPLE_LABELS), Some(EXAMPLE_IMAGES), "outdir") ==
            LoopSpec(Reliable, Fs({"outdir"}, map[]), "outdir", [3, 7], ImageSet(2, 2, 2, [10, 20, 30, 40, 50, 60, 70, 80]), 0)
  {
    ExampleLabelsParse();
    ExampleImagesParse();
  }

  lemma ExampleFirstSample()
    ensures LoopSpec(Reliable, Fs({"outdir"}, map[]), "outdir", [3, 7], ImageSet(2, 2, 2, [10, 20, 30, 40, 50, 60, 70, 80]), 0) ==
            LoopSpec(Reliable, Fs({"outdir", "outdir/3/"}, map["outdir/3/image0.pgm" := Encode(2, 2, [10, 20, 30, 40])]),
                     "outdir", [3, 7], ImageSet(2, 2, 2, [10, 20, 30, 40, 50, 60, 70, 80]), 1)
  {
    var images := ImageSet(2, 2, 2, [10, 20, 30, 40, 50, 60, 70, 80]);
    var fs0 := Fs({"outdir"}, map[]);
    ExamplePaths();
    ExampleBlocks();
    LoopUnfold(Reliable, fs0, "outdir", [3, 7], images, 0);
    ReliableWrite(fs0, "outdir/3/", "image0.pgm", [10, 20, 30, 40], 2, 2);
  }

  lemma ExampleSecondSample()
    ensures var fs1 := Fs({"outdir", "outdir/3/"}, map["outdir/3/image0.pgm" := Encode(2, 2, [10, 20, 30, 40])]);
            LoopSpec(Reliable, fs1, "outdir", [3, 7], ImageSet(2, 2, 2, [10, 20, 30, 40, 50, 60, 70, 80]), 1) ==
            Step(Pass, Fs({"outdir", "outdir/3/", "outdir/7/"},
                          fs1.files["outdir/7/image1.pgm" := Encode(2, 2, [50, 60, 70, 80])]))
  {
    var images := ImageSet(2, 2, 2, [10, 20, 30, 40, 50, 60, 70, 80]);
    var fs1 := Fs({"outdir", "outdir/3/"}, map["outdir/3/image0.pgm" := Encode(2, 2, [10, 20, 30, 40])]);
    ExamplePaths();
    ExampleBlocks();
    LoopUnfold(Reliable, fs1, "outdir", [3, 7], images, 1);
    ReliableWrite(fs1, "outdir/7/", "image1.pgm", [50, 60, 70, 80], 2, 2);
  }

  /**
   * Two 2x2 samples labelled 3 and 7 become outdir/3/image0.pgm and
   * outdir/7/image1.pgm, each "P5 2 2 255\n" followed by its four pixels.
   */
  lemma TwoSampleExample()
    ensures var r := RunSpec(Reliable, Fs({"outdir"}, map[]), Some(EXAMPLE_LABELS), Some(EXAMPLE_IMAGES), "outdir");
            r.outcome == Pass &&
            r.fs.dirs == {"outdir", "outdir/3/", "outdir/7/"} &&
            r.fs.files == map["outdir/3/image0.pgm" := [80, 53, 32, 50, 32, 50, 32, 50, 53, 53, 10, 10, 20, 30, 40],
                              "outdir/7/image1.pgm" := [80, 53, 32, 50, 32, 50, 32, 50, 53, 53, 10, 50, 60, 70, 80]]
  {
    ExampleRunIsLoop();
    ExampleFirstSample();
    ExampleSecondSample();
    ExampleEncodings();
  }
}
