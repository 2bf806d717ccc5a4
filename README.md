# MNIST to labelled PGM directories, modelled in Dafny

`convert_to_labeled_directories` reads an MNIST label file and an MNIST image
file (the IDX format: big-endian 32-bit header fields followed by raw bytes),
checks that both declare the same number of samples and that the output
directory exists, and then writes every sample `i` with label `l` as the
binary graymap `<output_dir>/<l>/image<i>.pgm` — the text header
`P5 <width> <height> 255` and a newline, followed by the image's
`width * height` pixel bytes — creating each label directory on first use.
Any failure prints a message and ends the program with status 1.

The model is split as the program is:

- `Idx` — `read_int`, `read_labels` and `read_images`. A file is its byte
  contents and reading is a position in it; each reader returns the decoded
  value or the error at which the program would exit. `read_int` gives the
  signed 32-bit view of a big-endian u32, so the magic comparisons and the
  positivity checks behave as they do on a C `int`. Encoders `LabelFile` and
  `ImageFile` build well-formed files for the round-trip lemmas.
- `Pgm` — the bytes `write_pgm_image` emits (`Encode`) and an independent
  reader for that layout (`Decode`), with the round trip proved.
- `Paths` — the bounded string operations (`snprintf` into a 255-byte buffer,
  `strlcpy`, `strlcat`) and the directory, file name and path of a sample.
- `FileSystem` — a `Disk` whose directory set and file map its methods
  update in place (`mkdir`, `fopen(…, "w")`, appending writes); which calls
  fail is a fixed environment `Env`, so a run is deterministic.
- `Convert` — `write_pgm_image`, the sample loop of `main` and the whole of
  `main`. Each is a pure specification (`WriteSpec`, `LoopSpec`, `RunSpec`)
  over a filesystem snapshot, and the methods `WritePgmImage` and `Run` carry
  the same steps out on a `Disk` and are proved to end in exactly the state
  and outcome their specification gives.
- `Text`, `Errors`, `Wrappers` — bytes, `%d` numerals, the error kinds and
  the Option/Result types.

## Model

| member | source | states |
|---|---|---|
| Text.Decimal | convert_to_labeled_directories.c:80 | the `%d` numeral of a non-negative value: at least one digit, all digits, no leading zero unless the value is 0 |
| Text.DecimalRoundTrip | convert_to_labeled_directories.c:80 | reading back the numeral of n as decimal digits gives n |
| Text.DecimalInjective | convert_to_labeled_directories.c:86 | different numbers print as different numerals |
| Text.DecimalLength | convert_to_labeled_directories.c:86 | a number below 10^k prints in at most k digits |
| Idx.U32At | convert_to_labeled_directories.c:169-177 | the four bytes at a position, taken in network order, as a u32 below 2^32 |
| Idx.ToInt32 | convert_to_labeled_directories.c:169-177 | storing a u32 in an int keeps values below 2^31 and wraps the others by 2^32; the result is positive exactly when the u32 is in 1 .. 2^31-1 |
| Idx.ReadInt | convert_to_labeled_directories.c:169-177 | read_int succeeds exactly when four bytes remain, advances by four and yields the signed view of their big-endian value; otherwise it is the int-read error |
| Idx.U32AtOfEncoded | convert_to_labeled_directories.c:169-177 | the network-order bytes of a u32, wherever they stand in a file, decode back to it |
| Idx.ReadIntOfEncoded | convert_to_labeled_directories.c:169-177 | read_int after any prefix returns the int value of the u32 written there and the position after it |
| Idx.ParseLabels | convert_to_labeled_directories.c:139-164 | each exit of read_labels in order: short magic, wrong magic, short count, too few label bytes (including a count that is negative as an int); success exactly when the magic is 2049 and the declared count of bytes follows, and then the labels are those bytes |
| Idx.ParseLabelFile | convert_to_labeled_directories.c:139-164 | every well-formed label file, with anything after it, reads back to its labels |
| Idx.ShortLabelFile | convert_to_labeled_directories.c:153-160 | a label file whose payload is shorter than its count is rejected as a read error |
| Idx.ImageFileIsNotALabelFile | convert_to_labeled_directories.c:146-151 | an image file given as the label file is rejected by the magic check |
| Idx.ParseImageHeader | convert_to_labeled_directories.c:108-120 | read_images' header: wrong magic, a short header and a non-positive count, height or width each give their error; success exactly when the magic is 2051 and all three are positive as ints, and then the dimensions are those fields in the order n, height, width |
| Idx.ParseImages | convert_to_labeled_directories.c:101-133 | after a good header, success exactly when n * height * width pixel bytes follow, returning exactly those bytes; a successful result is a valid image set |
| Idx.ParseImageFile | convert_to_labeled_directories.c:101-133 | every well-formed image file, with anything after it, reads back to its image set |
| Idx.LabelFileIsNotAnImageFile | convert_to_labeled_directories.c:108-112 | a label file given as the image file is rejected by the magic check |
| Pgm.Encode | convert_to_labeled_directories.c:219-224 | the output file ends with exactly the image's pixels, after a non-empty header |
| Pgm.DecodeEncode | convert_to_labeled_directories.c:219-224 | reading back what write_pgm_image writes gives its width, height, the maximum gray 255 and exactly its pixels |
| Paths.BoundedCopy | convert_to_labeled_directories.c:80 | snprintf and strlcpy into a buffer of the given size keep a prefix shorter than the buffer and return the full length, and the copy is whole exactly when that length is below the size |
| Paths.StrlCat | convert_to_labeled_directories.c:208-211 | strlcat keeps the old contents, appends a prefix of the source, returns the sum of both lengths, and appends all of it exactly when that sum is below the size |
| Paths.FilenameFits | convert_to_labeled_directories.c:85-89 | for every index an int can hold, "image<i>.pgm" is at most 19 characters, so that check never stops the program |
| Paths.SamplePathInjective | convert_to_labeled_directories.c:79-89 | two samples with the same output path have the same label and the same index |
| Convert.Block | convert_to_labeled_directories.c:76 | sample i's image is width * height bytes |
| Convert.BlocksTile | convert_to_labeled_directories.c:75-77 | the first k sample images, one after another, are exactly the first k * width * height bytes of the buffer |
| Convert.BlocksCoverBuffer | convert_to_labeled_directories.c:75-77 | all sample images together are the whole pixel buffer |
| Convert.SaveSpec | convert_to_labeled_directories.c:213-226 | opening and writing one file: success exactly when neither the open nor the writes fail, and then the file holds the graymap; an open failure leaves the files alone, a write failure leaves the file empty |
| Convert.SaveImage | convert_to_labeled_directories.c:213-226 | the fopen, fprintf and fwrite on the Disk end in the state and outcome SaveSpec gives |
| Convert.WriteContents | convert_to_labeled_directories.c:219-224 | the unchecked header write and the checked pixel write leave the header followed by the pixels, or an empty file when writing fails |
| Convert.WriteSpec | convert_to_labeled_directories.c:194-227 | write_pgm_image: a directory error happens exactly when the directory is missing and mkdir fails, and then nothing changes; on every other outcome, including a path that turns out too long, the directory exists afterwards; success exactly when the directory exists or can be made, the path fits in 255 bytes and the file can be opened and written; success puts the graymap at directory + filename; no other file changes |
| Convert.WritePgmImage | convert_to_labeled_directories.c:194-227 | the calls on the Disk end in the state and outcome WriteSpec gives |
| Convert.ReliableWrite | convert_to_labeled_directories.c:194-227 | with no failing system call, a write whose path fits creates the directory and puts the graymap at the path |
| Convert.LoopSpec | convert_to_labeled_directories.c:75-91 | the sample loop only adds directories and files, and any failure it reports is an output error |
| Convert.LoopWritesEverySample | convert_to_labeled_directories.c:75-91 | a loop that completes has written every sample's graymap at its own path and left every file outside those paths unchanged |
| Convert.LoopMakesSampleDirectories | convert_to_labeled_directories.c:75-91 | a loop that completes leaves exactly the old directories plus each remaining sample's "<out>/<label>/" (write_pgm_image's mkdir at lines 195-200) |
| Convert.LoopPassesIffPathsFit | convert_to_labeled_directories.c:75-91 | with no failing system call, the loop completes exactly when every sample's path fits in 255 bytes |
| Convert.PathTooLongStopsBeforeWriting | convert_to_labeled_directories.c:80-83 | a sample whose path does not fit stops the loop with a path or directory error before its file is written, leaving the files unchanged; when already its directory part does not fit, main's snprintf check stops the loop with nothing changed at all |
| Convert.RunSpec | convert_to_labeled_directories.c:47-95 | every failure before the sample loop leaves the filesystem exactly as it was |
| Convert.Run | convert_to_labeled_directories.c:47-95 | main on a Disk ends in the state and outcome RunSpec gives |
| Convert.CountMismatchWritesNothing | convert_to_labeled_directories.c:62-65 | once both files parse, the run reports a count mismatch exactly when the counts differ, and then nothing was created |
| Convert.SwappedInputsRejected | convert_to_labeled_directories.c:146-151 | giving the image file as the label file fails at the label magic check with nothing written |
| Convert.RunWritesEverySample | convert_to_labeled_directories.c:47-95 | a successful run had consistent inputs and an existing output directory, and wrote for every sample i the file "<out>/<label>/image<i>.pgm" that reads back as that image with maximum gray 255; no other file changed; the directories are exactly the old ones plus every sample's label directory |
| Convert.RunSucceedsIff | convert_to_labeled_directories.c:47-95 | with no failing system call and both files parsing, a run succeeds exactly when the counts agree, the output directory exists and every sample's path fits |
| Convert.TwoSampleExample | convert_to_labeled_directories.c:47-95 | two 2x2 samples labelled 3 and 7 become outdir/3/image0.pgm and outdir/7/image1.pgm with the exact expected bytes, and the two label directories are created |
| FileSystem.Disk.MakeDirectory | convert_to_labeled_directories.c:196 | mkdir succeeds unless the environment makes it fail, and then adds the directory |
| FileSystem.Disk.Create | convert_to_labeled_directories.c:213 | fopen for writing succeeds unless the environment makes it fail, and then leaves an empty file at the path |
| FileSystem.Disk.Append | convert_to_labeled_directories.c:219-221 | a write to an open file appends its bytes unless the environment makes writing there fail |

## Left out

- Real I/O: the input files are their byte contents (or None when fopen fails), and which mkdir, fopen and write calls fail is a fixed environment rather than the operating system.
- The messages printed with printf, fprintf and perror, and the exit status: a run ends in an outcome that names which check stopped it.
- calloc, free, bzero and fclose: memory management and closing have no observable effect in the model.
- The argument-count check and usage message of main (lines 48-51): the model starts from the three paths.
- isDirectory (lines 182-189) is membership in the set of directories; there is no path normalisation, no symbolic links and no existing non-directory at a path except as an mkdir or fopen failure of the environment.
- isDirectory tests only the S_IFDIR bit of st_mode, which block devices and sockets also carry; such a path is represented as a member of the directory set whose later mkdir or fopen below it fails through the environment.
- Idx.ParseLabels: a count that is negative as an int, which C passes to calloc and fread as a huge size, is modelled as the label read error.
- Idx.ParseImages: the product n * height * width (line 122) and the offset i * width * height (line 76) are unbounded integers; the 32-bit overflow of a C int for very large headers is not modelled.
- Convert.SaveSpec: a failing write fails the header and the pixel write alike and leaves the file empty; how much of a partly buffered write reaches the disk is not modelled.
- Path strings stand for byte strings: each `char` of the output directory is one byte of the command-line argument, and none is NUL. The 255-byte limit is checked on that count, so an argument holding multi-byte characters, whose length in bytes exceeds its length in characters, is not modelled.
- Stdio buffering, concurrency with other processes changing the filesystem, and the host's byte order (ntohl and sizeof(int) are fixed to a 4-byte big-endian read).
