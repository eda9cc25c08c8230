/** The working directory as the proxy and the archiver see it: a map from relative
    path to file contents, with a log of the writes and removals made to it. */
module Files {
  import opened Questions

  /** What a file holds: a JSON array of questions or a plain text report. */
  datatype File = JsonFile(questions: seq<Question>) | TextFile(text: string)

  datatype Event = Wrote(path: string) | Removed(path: string)

  class FileStore {
    var files: map<string, File>
    var log: seq<Event>

    constructor (initial: map<string, File>)
      ensures files == initial && log == []
    {
      files := initial;
      log := [];
    }

    /** `open(path, 'w')` followed by a complete write: the file is created or replaced. */
    method Write(path: string, contents: File)
      modifies this
      ensures files == old(files)[path := contents]
      ensures log == old(log) + [Wrote(path)]
    {
      files := files[path := contents];
      log := log + [Wrote(path)];
    }

    /** `os.remove(path)` of a file that exists. */
    method Remove(path: string)
      requires path in files
      modifies this
      ensures files == old(files) - {path}
      ensures log == old(log) + [Removed(path)]
    {
      files := files - {path};
      log := log + [Removed(path)];
    }
  }
}
