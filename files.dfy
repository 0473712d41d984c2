/**
 * The working directory the dispatcher writes its artifacts into, as a map
 * from file name to content. Whether `os.Create` or `os.Rename` succeeds is
 * decided by the environment and passed in as `ok`.
 */
module Files {

  class FileSystem {
    var files: map<string, string>

    constructor (initial: map<string, string>)
      ensures files == initial
    {
      files := initial;
    }

    /** os.Create: creates the file, or truncates it when it exists (main.go:46). */
    method Create(path: string, ok: bool) returns (created: bool)
      modifies this
      ensures created == ok
      ensures files == if ok then old(files)[path := ""] else old(files)
    {
      created := ok;
      if ok {
        files := files[path := ""];
      }
    }

    /** Output streamed into an open file (main.go:26-27). */
    method Append(path: string, data: string)
      requires path in files
      modifies this
      ensures files == old(files)[path := old(files)[path] + data]
    {
      files := files[path := files[path] + data];
    }

    /**
     * os.Rename: atomically moves `from` to `to`, replacing `to` if it exists
     * (main.go:58). It fails when the environment says so or `from` is missing,
     * and then changes nothing.
     */
    method Rename(from: string, to: string, ok: bool) returns (renamed: bool)
      modifies this
      ensures renamed == (ok && from in old(files))
      ensures files == if renamed then (old(files) - {from})[to := old(files)[from]] else old(files)
    {
      renamed := ok && from in files;
      if renamed {
        files := (files - {from})[to := files[from]];
      }
    }
  }
}
