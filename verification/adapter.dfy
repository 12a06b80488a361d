/** The storage adapter class of index.js: its constructor, `saveRaw`, `save`,
    `exists`, the error callback of `serve`, `delete` and `read`. Every filesystem
    call, the base-class helpers and the imagemin compressor are parameters: each
    stands for the outcome the external call settles with. */
module Adapter {
  import opened Wrappers
  import opened Plugins
  import opened Paths
  import opened Errors

  newtype uint8 = x: int | 0 <= x < 256

  type Bytes = seq<uint8>

  /** The uploaded image as the web framework hands it over: temp path and name. */
  datatype Image = Image(path: string, name: string)

  /** The fs-extra calls the adapter makes, as the outcome each settles with. */
  datatype Fs = Fs(
    mkdirs: string -> Outcome<FsError>,
    writeFile: (string, Bytes) -> Outcome<FsError>,
    readFile: string -> Result<Bytes, FsError>,
    stat: string -> Outcome<FsError>)

  /** The helpers inherited from the storage base class. */
  datatype Base = Base(
    getTargetDir: string -> string,
    getUniqueFileName: (Image, string) -> Result<string, FsError>)

  /** imagemin: the files it produced from one source path with the given plugins,
      or the error it threw. */
  type Imagemin = (string, seq<Plugin>) -> Result<seq<Bytes>, string>

  /** The adapter's state, fixed at construction. */
  datatype Adapter = Adapter(storagePath: string, plugins: seq<Plugin>)

  /** A file write the adapter issues. */
  datatype Write = Write(path: string, data: Bytes)

  /** How a save settles, together with the file write it issued (if any). */
  datatype SaveResult = SaveResult(url: Result<string, FsError>, write: Option<Write>)

  /** The constructor: the image content path comes from configuration. */
  function New(storagePath: string, options: Option<Options>): (a: Adapter)
    ensures a.storagePath == storagePath
    ensures options.None? ==> a.plugins == []
    ensures forall c :: c in CodecsOf(a.plugins) <==> options.Some? && IsActive(options.value, c)
    ensures StrictlyRanked(CodecsOf(a.plugins))
    ensures forall i :: 0 <= i < |a.plugins| ==>
      options.Some? && Entry(options.value, a.plugins[i].codec) == Some(a.plugins[i].config)
  {
    Adapter(storagePath, BuildPlugins(options))
  }

  /** `saveRaw(buffer, targetPath)`: create the parent directory, write the buffer,
      resolve to the public URL of `targetPath`. A failing mkdirs or write rejects
      with that error. */
  function SaveRaw(a: Adapter, host: Host, fs: Fs, buffer: Bytes, targetPath: string): (r: SaveResult)
    ensures var file := host.join(a.storagePath, targetPath);
      && (r.url.Success? <==> fs.mkdirs(host.dirname(file)).Pass? && fs.writeFile(file, buffer).Pass?)
      && (r.write.Some? <==> fs.mkdirs(host.dirname(file)).Pass?)
      && (r.write.Some? ==> r.write.value == Write(file, buffer))
      && (fs.mkdirs(host.dirname(file)).Fail? ==> r.url == Failure(fs.mkdirs(host.dirname(file)).error))
      && (fs.mkdirs(host.dirname(file)).Pass? && fs.writeFile(file, buffer).Fail? ==>
            r.url == Failure(fs.writeFile(file, buffer).error))
    ensures r.url.Success? ==> r.url.value == PublicUrl(host, targetPath)
    ensures r.url.Success? && host.sep != '/' ==> host.sep !in r.url.value
  {
    var file := host.join(a.storagePath, targetPath);
    match fs.mkdirs(host.dirname(file))
    case Fail(e) => SaveResult(Failure(e), None)
    case Pass =>
      match fs.writeFile(file, buffer)
      case Fail(e) => SaveResult(Failure(e), Some(Write(file, buffer)))
      case Pass => SaveResult(Success(PublicUrl(host, targetPath)), Some(Write(file, buffer)))
  }

  /** The write `save` issues once imagemin has settled. A thrown error is caught and
      logged, and so is the TypeError of reading the first file of an empty result:
      in both cases nothing is written, and the original bytes are not used instead. */
  function CompressedWrite(target: string, compressed: Result<seq<Bytes>, string>): (w: Option<Write>)
    ensures w.Some? <==> compressed.Success? && |compressed.value| > 0
    ensures w.Some? ==> w.value == Write(target, compressed.value[0])
  {
    match compressed
    case Failure(_) => None
    case Success(files) => if |files| == 0 then None else Some(Write(target, files[0]))
  }

  /** `save(image, targetDir)`: pick the directory (the given one if truthy, else the
      base class's default), get a unique file name in it, create it, compress the
      upload and write the first output file, then resolve to the public URL of the
      file relative to the storage path. Only the file name lookup and mkdirs can
      make it reject. */
  function Save(a: Adapter, host: Host, fs: Fs, base: Base, imagemin: Imagemin,
                image: Image, targetDir: Option<string>): (r: SaveResult)
    ensures var dir := if Truthy(targetDir) then targetDir.value else base.getTargetDir(a.storagePath);
      var name := base.getUniqueFileName(image, dir);
      && (name.Failure? ==> r.url == Failure(name.error) && r.write.None?)
      && (name.Success? ==>
            && (r.url.Failure? <==> fs.mkdirs(dir).Fail?)
            && (r.url.Failure? ==> r.url.error == fs.mkdirs(dir).error && r.write.None?)
            && (r.url.Success? ==> r.url.value == PublicUrl(host, host.relative(a.storagePath, name.value)))
            && (r.write.Some? <==> r.url.Success? && imagemin(image.path, a.plugins).Success?
                                   && |imagemin(image.path, a.plugins).value| > 0)
            && (r.write.Some? ==> r.write.value == Write(name.value, imagemin(image.path, a.plugins).value[0])))
  {
    var dir := OrElse(targetDir, base.getTargetDir(a.storagePath));
    match base.getUniqueFileName(image, dir)
    case Failure(e) => SaveResult(Failure(e), None)
    case Success(fileName) =>
      match fs.mkdirs(dir)
      case Fail(e) => SaveResult(Failure(e), None)
      case Pass =>
        SaveResult(Success(PublicUrl(host, host.relative(a.storagePath, fileName))),
                   CompressedWrite(fileName, imagemin(image.path, a.plugins)))
  }

  /** Compression is fail-open: whatever imagemin does, `save` settles the same way,
      and when imagemin throws nothing is written. */
  lemma SaveFailOpen(a: Adapter, host: Host, fs: Fs, base: Base, m1: Imagemin, m2: Imagemin,
                     image: Image, targetDir: Option<string>)
    ensures Save(a, host, fs, base, m1, image, targetDir).url == Save(a, host, fs, base, m2, image, targetDir).url
    ensures m1(image.path, a.plugins).Failure? ==> Save(a, host, fs, base, m1, image, targetDir).write.None?
  {
  }

  /** As written, `save` can resolve to the URL of a file it never wrote: when
      imagemin throws, the error is logged and the URL returned anyway. */
  lemma SaveResolvesWithoutWrite(a: Adapter, host: Host, fs: Fs, base: Base, image: Image, dir: string)
    requires dir != ""
    requires base.getUniqueFileName(image, dir).Success?
    requires fs.mkdirs(dir).Pass?
    ensures var r := Save(a, host, fs, base, (_, _) => Failure("plugin crashed"), image, Some(dir));
      r.url.Success? && r.write.None?
  {
  }

  /** `save` with the fail-open policy carried through: when compression throws or
      yields no file, the uploaded bytes themselves are written; if they cannot be
      read, the save rejects instead of resolving to a URL without a file. */
  function SaveKeepingOriginal(a: Adapter, host: Host, fs: Fs, base: Base, imagemin: Imagemin,
                               image: Image, targetDir: Option<string>): (r: SaveResult)
    ensures r.url.Success? ==> r.write.Some?
    ensures var dir := if Truthy(targetDir) then targetDir.value else base.getTargetDir(a.storagePath);
      var name := base.getUniqueFileName(image, dir);
      var compressed := imagemin(image.path, a.plugins);
      && (r.url.Success? ==>
            && name.Success?
            && fs.mkdirs(dir).Pass?
            && r.url.value == PublicUrl(host, host.relative(a.storagePath, name.value))
            && r.write.value.path == name.value)
      && (r.write.Some? && compressed.Success? && |compressed.value| > 0 ==>
            r.write.value.data == compressed.value[0])
      && (r.write.Some? && !(compressed.Success? && |compressed.value| > 0) ==>
            fs.readFile(image.path).Success? && r.write.value.data == fs.readFile(image.path).value)
      && (name.Failure? ==> r.url == Failure(name.error) && r.write.None?)
      && (name.Success? && fs.mkdirs(dir).Fail? ==> r.url == Failure(fs.mkdirs(dir).error) && r.write.None?)
      && (name.Success? && fs.mkdirs(dir).Pass? && compressed.Success? && |compressed.value| > 0 ==>
            r.url.Success?)
      && (name.Success? && fs.mkdirs(dir).Pass? && r.url.Failure? ==>
            fs.readFile(image.path).Failure? && r.url.error == fs.readFile(image.path).error)
  {
    var dir := OrElse(targetDir, base.getTargetDir(a.storagePath));
    match base.getUniqueFileName(image, dir)
    case Failure(e) => SaveResult(Failure(e), None)
    case Success(fileName) =>
      match fs.mkdirs(dir)
      case Fail(e) => SaveResult(Failure(e), None)
      case Pass =>
        var url := PublicUrl(host, host.relative(a.storagePath, fileName));
        match CompressedWrite(fileName, imagemin(image.path, a.plugins))
        case Some(w) => SaveResult(Success(url), Some(w))
        case None =>
          match fs.readFile(image.path)
          case Success(original) => SaveResult(Success(url), Some(Write(fileName, original)))
          case Failure(e) => SaveResult(Failure(e), None)
  }

  /** The correction only changes the branch where compression produced no file:
      everywhere else it settles exactly as `save` does. */
  lemma SaveKeepingOriginalAgreesWithSave(a: Adapter, host: Host, fs: Fs, base: Base, imagemin: Imagemin,
                                          image: Image, targetDir: Option<string>)
    ensures var dir := if Truthy(targetDir) then targetDir.value else base.getTargetDir(a.storagePath);
      var name := base.getUniqueFileName(image, dir);
      var compressed := imagemin(image.path, a.plugins);
      (name.Failure? || fs.mkdirs(dir).Fail? || (compressed.Success? && |compressed.value| > 0)) ==>
        SaveKeepingOriginal(a, host, fs, base, imagemin, image, targetDir)
          == Save(a, host, fs, base, imagemin, image, targetDir)
  {
  }

  /** `exists(fileName, targetDir)`: stat the file under the given directory (if
      truthy) or the storage path. It never rejects: any stat failure reads as false. */
  function Exists(a: Adapter, host: Host, fs: Fs, fileName: string, targetDir: Option<string>): (r: Result<bool, FsError>)
    ensures r.Success?
    ensures var dir := if Truthy(targetDir) then targetDir.value else a.storagePath;
      r.value <==> fs.stat(host.join(dir, fileName)).Pass?
  {
    Success(fs.stat(host.join(OrElse(targetDir, a.storagePath), fileName)).Pass?)
  }

  /** The callback `serve` hands to the static-file server: `arg` is what it passes
      to `next` (`None` for a call without argument). */
  function ServeNext(err: Option<HttpError>): (arg: Option<DomainError>)
    ensures arg.None? <==> err.None?
    ensures err.Some? ==> arg.value.kind == Lookup(ServeTable, err.value.statusCode)
    ensures err.Some? && err.value.statusCode == 404 ==>
      arg.value.code == Some(StaticFileNotFound) && arg.value.property == err.value.path
  {
    match err
    case None => None
    case Some(e) =>
      ServeTranslationMatchesTable(e);
      Some(TranslateServeError(e))
  }

  const NotImplemented: string := "not implemented"

  /** `delete()` always rejects with "not implemented"; it takes no filesystem
      outcome because it touches nothing. */
  function Delete(): (r: Outcome<string>)
    ensures r.Fail? && r.error == NotImplemented
  {
    Fail(NotImplemented)
  }

  /** `read(options)`: strip one trailing separator from the path (absent becomes
      ""), read the file under the storage path, and either resolve to its bytes
      unchanged or reject with the translated error, whose message names the
      stripped path. */
  function Read(a: Adapter, host: Host, fs: Fs, path: Option<string>): (r: Result<Bytes, DomainError>)
    ensures var p := StripTrailingSeparator(path);
      var file := fs.readFile(host.join(a.storagePath, p));
      && (r.Success? <==> file.Success?)
      && (r.Success? ==> r.value == file.value)
      && (r.Failure? ==>
            && r.error.kind == Lookup(ReadTable, file.error.code)
            && r.error.cause == FsCause(file.error)
            && (r.error.kind == NotFound || r.error.kind == Internal ==> r.error.message.Some? && r.error.message.value.img == Some(p)))
  {
    var p := StripTrailingSeparator(path);
    match fs.readFile(host.join(a.storagePath, p))
    case Success(bytes) => Success(bytes)
    case Failure(err) =>
      ReadTranslationMatchesTable(err, p);
      Failure(TranslateReadError(err, p))
  }

  /** A request path with one trailing separator reads the same file, with the same
      outcome, as the path without it; an absent path reads the storage root. */
  lemma ReadIgnoresTrailingSeparator(a: Adapter, host: Host, fs: Fs, p: string, c: char)
    requires IsSeparator(c)
    requires !EndsWithSeparator(p)
    ensures Read(a, host, fs, Some(p + [c])) == Read(a, host, fs, Some(p))
    ensures Read(a, host, fs, None) == Read(a, host, fs, Some(""))
  {
  }
}
