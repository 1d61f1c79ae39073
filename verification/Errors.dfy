/** Result codes shared by the namespace and the FAT16 backend. */
module Errors {

  datatype FsError =
    | Ok | End | Invalid | Unavailable | NotFound | NotDirectory
    | IsDirectory | Exists | NotEmpty | PathTooLong | NameTooLong
    | TooDeep | Range | Access | ReadOnly | Busy
    | NoMemory | NoSpace | Unsupported | IoError

  datatype Result<+T> = Success(value: T) | Failure(error: FsError)
}
