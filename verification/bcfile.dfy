/** The boundary-condition file reference that the wave boundary returns to its caller. */
module BCFiles {
  import opened Wrappers
  import opened Errors

  /** A path `dir / name`; `name` is the path's base name. */
  datatype FilePath = FilePath(dir: string, name: string)

  /** A single boundary file, a file list, or both (the file list then wins). */
  datatype BCFile = BCFile(bcfile: Option<FilePath>, filelist: Option<FilePath>)

  predicate Valid(b: BCFile)
  {
    b.bcfile.Some? || b.filelist.Some?
  }

  /** Construction: the validator refuses a reference that names neither file. */
  function NewBCFile(bcfile: Option<FilePath>, filelist: Option<FilePath>): (r: Result<BCFile, Error>)
    ensures r.Ok? <==> bcfile.Some? || filelist.Some?
    ensures r.Ok? ==> Valid(r.value) && r.value.bcfile == bcfile && r.value.filelist == filelist
    ensures r.Err? ==> r.error == NoBoundaryFile
  {
    if bcfile.None? && filelist.None? then Err(NoBoundaryFile)
    else Ok(BCFile(bcfile, filelist))
  }

  /** The namelist fragment: the base name of the file list if there is one, else of the boundary file. */
  function Namelist(b: BCFile): (nl: map<string, string>)
    requires Valid(b)
    ensures |nl| == 1 && ("filelist" in nl <==> b.filelist.Some?)
  {
    if b.filelist.Some? then map["filelist" := b.filelist.value.name]
    else map["bcfile" := b.bcfile.value.name]
  }

  /**
   * Every reference that construction accepts yields a one-key namelist; the
   * key is `filelist` exactly when a file list is set, even beside a boundary
   * file, and the value is that file's base name.
   */
  lemma NamelistHasOneKey(bcfile: Option<FilePath>, filelist: Option<FilePath>)
    requires NewBCFile(bcfile, filelist).Ok?
    ensures var nl := Namelist(NewBCFile(bcfile, filelist).value);
      && |nl| == 1
      && ("filelist" in nl <==> filelist.Some?)
      && ("bcfile" in nl <==> filelist.None?)
      && (filelist.Some? ==> nl["filelist"] == filelist.value.name)
      && (filelist.None? ==> nl["bcfile"] == bcfile.value.name)
  {
    var nl := Namelist(NewBCFile(bcfile, filelist).value);
    assert nl.Keys == if filelist.Some? then {"filelist"} else {"bcfile"};
  }
}
