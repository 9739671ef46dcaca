/**
 * What the code asks of the host's file system through `Path`, `Directory`,
 * `File` and `AppContext`: whether a path is rooted, whether a directory or
 * a file exists, how two paths are combined, the application's base
 * directory, the current directory and the two separator characters.
 */
module HostFileSystem {
  datatype FileSystem = FileSystem(
    isPathRooted: string -> bool,
    directoryExists: string -> bool,
    fileExists: string -> bool,
    combine: (string, string) -> string,
    baseDirectory: string,
    currentDirectory: string,
    directorySeparator: char,
    altDirectorySeparator: char)
}
