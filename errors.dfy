/**
 * Every way the converter can stop. The C program prints a diagnostic and
 * calls exit(1) at each of these points; here each becomes a value.
 */
module Errors {

  datatype Error =
    | LabelsFileOpenError     // fopen of the label file failed
    | ImagesFileOpenError     // fopen of the image file failed
    | IntReadError            // read_int: fewer than 4 bytes left
    | NotALabelFile           // label magic is not 2049
    | LabelReadError          // fewer label bytes than the header declares
    | NotAnImageFile          // image magic is not 2051
    | BadImageHeader          // num_images, height or width is not positive
    | ImageReadError          // fewer pixel bytes than num_images * height * width
    | CountMismatch           // num_labels != num_images
    | MissingOutputDirectory  // the output directory is not a directory
    | DirectoryPathTooLong    // "<out>/<label>/" does not fit in MAX_PATH
    | FilenameTooLong         // "image<i>.pgm" does not fit in MAX_PATH
    | FilePathTooLong         // directory + filename does not fit in MAX_PATH
    | DirectoryCreateError    // mkdir failed
    | ImageFileOpenError      // fopen of an output image failed
    | ImageWriteError         // fwrite wrote fewer than width * height bytes

  /** The result of a run, or of one step of it, that produces no value. */
  datatype Outcome = Pass | Fail(error: Error)
}
