/** The worker's scratch directories, reduced to what the run observes:
    each file's bytes and the mode last given to it with chmod. */
module Files {
  import opened Base
  import opened Text

  /** The mode `os.chmod(path, 0o777)` sets: readable, writable and executable by all. */
  const Executable: int := 511

  /** A file's bytes and the mode last set with chmod; `None` stands for the mode
      `open` gave the new file, which depends on the process umask. */
  datatype FileEntry = FileEntry(content: seq<byte>, mode: Option<int>)

  /** The directory after `open(name, 'wb')` followed by writes totalling
      `content`: an existing file is truncated and keeps its mode. */
  function Stored(files: map<string, FileEntry>, name: string, content: seq<byte>): map<string, FileEntry>
  {
    files[name := FileEntry(content, if name in files then files[name].mode else None)]
  }

  /** `os.path.join(dir, name)` for POSIX paths. */
  function PathJoin(dir: string, name: string): string
  {
    if StartsWith(name, "/") then name
    else if dir == [] || EndsWith(dir, "/") then dir + name
    else dir + "/" + name
  }

  /** The joined path ends with the name and, unless the name is absolute, lies
      under the directory, separated from it by exactly one slash. */
  lemma PathJoinParts(dir: string, name: string)
    ensures var p := PathJoin(dir, name);
      && EndsWith(p, name)
      && (StartsWith(name, "/") ==> p == name)
      && (!StartsWith(name, "/") ==> StartsWith(p, dir))
      && (!StartsWith(name, "/") && dir != [] ==>
            p[..|p| - |name|] == if EndsWith(dir, "/") then dir else dir + "/")
  {
    var p := PathJoin(dir, name);
    if !StartsWith(name, "/") && dir != [] && !EndsWith(dir, "/") {
      assert p == (dir + "/") + name;
    }
  }

  /** A directory the run creates and fills; files are keyed by their name
      relative to `path`. */
  class Directory {
    const path: string
    var files: map<string, FileEntry>

    /** A new, empty directory at `path`. */
    constructor (path: string)
      ensures this.path == path && files == map[]
    {
      this.path := path;
      files := map[];
    }

    /** `open(name, 'wb')`: creates the file or truncates it. */
    method Open(name: string)
      modifies this
      ensures files == Stored(old(files), name, [])
    {
      files := Stored(files, name, []);
    }

    /** `f.write(data)` on a file opened for writing: appends the bytes. */
    method Write(name: string, data: seq<byte>)
      requires name in files
      modifies this
      ensures files == old(files)[name := FileEntry(old(files)[name].content + data, old(files)[name].mode)]
    {
      files := files[name := FileEntry(files[name].content + data, files[name].mode)];
    }

    /** `os.chmod(name, mode)` on an existing file. */
    method Chmod(name: string, mode: int)
      requires name in files
      modifies this
      ensures files == old(files)[name := FileEntry(old(files)[name].content, Some(mode))]
    {
      files := files[name := FileEntry(files[name].content, Some(mode))];
    }
  }
}
