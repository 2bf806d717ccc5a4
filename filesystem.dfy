/**
 * The part of the operating system the converter touches: which directories
 * exist and what each file holds. Whether a mkdir, an fopen for writing or a
 * write fails is not something the program decides; the environment `env`
 * says, for each path, whether that call fails there.
 */
module FileSystem {
  import opened Text

  /** The paths at which mkdir, fopen(path, "w") and writes to the file fail. */
  datatype Env = Env(mkdirFails: set<string>, openFails: set<string>, writeFails: set<string>)

  /** An environment in which no call fails. */
  const Reliable := Env({}, {}, {})

  /** A snapshot of the directories and files. */
  datatype Fs = Fs(dirs: set<string>, files: map<string, seq<byte>>)

  class Disk {
    const env: Env
    var dirs: set<string>
    var files: map<string, seq<byte>>

    constructor (env: Env, dirs: set<string>, files: map<string, seq<byte>>)
      ensures this.env == env && this.dirs == dirs && this.files == files
    {
      this.env := env;
      this.dirs := dirs;
      this.files := files;
    }

    function State(): Fs
      reads this
    {
      Fs(dirs, files)
    }

    /** isDirectory: stat succeeds and the S_IFDIR bit of st_mode is set. */
    predicate IsDirectory(path: string)
      reads this
    {
      path in dirs
    }

    /** mkdir(path, 0755). */
    method MakeDirectory(path: string) returns (ok: bool)
      modifies this
      ensures ok <==> path !in env.mkdirFails
      ensures dirs == if ok then old(dirs) + {path} else old(dirs)
      ensures files == old(files)
    {
      ok := path !in env.mkdirFails;
      if ok {
        dirs := dirs + {path};
      }
    }

    /** fopen(path, "w"): creates the file, or empties it if it exists. */
    method Create(path: string) returns (ok: bool)
      modifies this
      ensures ok <==> path !in env.openFails
      ensures dirs == old(dirs)
      ensures files == if ok then old(files)[path := []] else old(files)
    {
      ok := path !in env.openFails;
      if ok {
        files := files[path := []];
      }
    }

    /** fprintf or fwrite to an open file: appends `bytes` unless writing there fails. */
    method Append(path: string, bytes: seq<byte>) returns (ok: bool)
      requires path in files
      modifies this
      ensures ok <==> path !in env.writeFails
      ensures dirs == old(dirs)
      ensures files == if ok then old(files)[path := old(files)[path] + bytes] else old(files)
    {
      ok := path !in env.writeFails;
      if ok {
        files := files[path := files[path] + bytes];
      }
    }
  }
}
