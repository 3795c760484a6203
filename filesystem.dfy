/**
  The part of the disk the service touches, as explicit state: the
  directories that exist, and each file's rows. The paths whose
  open(path, 'w') raises an OSError are fixed for the lifetime of the object.
 */
module FileSystems {
  import opened Values
  import opened Paths

  class FileSystem {
    var dirs: set<string>
    var files: map<string, seq<Row>>
    const unwritable: set<string>

    constructor (dirs: set<string>, files: map<string, seq<Row>>, unwritable: set<string>)
      ensures this.dirs == dirs && this.files == files && this.unwritable == unwritable
    {
      this.dirs := dirs;
      this.files := files;
      this.unwritable := unwritable;
    }

    /** os.path.exists: true of a directory and of a file alike. */
    predicate Exists(p: string)
      reads this
    {
      p in dirs || p in files
    }

    /** os.makedirs(p): creates p together with every missing parent. */
    method MakeDirs(p: string)
      requires !Exists(p)
      modifies this
      ensures dirs == old(dirs) + Ancestors(p)
      ensures files == old(files)
      ensures Exists(p)
    {
      dirs := dirs + Ancestors(p);
    }

    /**
      open(p, 'w') followed by one writerow per row: either the open fails and
      nothing changes, or the file now holds exactly these rows.
     */
    method WriteRows(p: string, rows: seq<Row>) returns (ok: bool)
      modifies this
      ensures ok <==> p !in unwritable
      ensures files == if ok then old(files)[p := rows] else old(files)
      ensures dirs == old(dirs)
    {
      if p in unwritable {
        return false;
      }
      files := files[p := rows];
      return true;
    }
  }
}
