/** routes/upload.js: which uploads are accepted, how a Base64 upload is parsed and named, the size
    limit, what `processImage` decides from an image's dimensions, and how upload errors are answered.
    The files themselves (writing, compressing, renaming, deleting) are left to the environment. */
module UploadRoute {
  import opened Wrappers
  import opened Text
  import opened Paths
  import opened Analysis

  // ---------------------------------------------------------------------------------------------
  // The MIME filter

  const AllowedMimes: seq<string> := ["image/jpeg", "image/jpg", "image/png", "image/bmp", "image/webp"]

  const UnsupportedFile: string := "不支持的文件格式，请上传 JPG、PNG、BMP 或 WebP 格式的图片"

  /** multer's `fileFilter`: a file is accepted exactly when its MIME type is one of the five. */
  function FileFilter(mimetype: string): (r: Result<bool>)
    ensures r.Ok? <==> mimetype in AllowedMimes
    ensures r.Ok? ==> r.value
    ensures r.Err? ==> r.message == UnsupportedFile
  {
    if mimetype in AllowedMimes then Ok(true) else Err(UnsupportedFile)
  }

  /** Every accepted type is an image type. */
  lemma FilterAcceptsOnlyImages(mimetype: string)
    requires FileFilter(mimetype).Ok?
    ensures StartsWith(mimetype, "image/")
  {
  }

  // ---------------------------------------------------------------------------------------------
  // The size limit

  /** 20 MiB. */
  const DefaultMaxSize: int := 20 * 1024 * 1024

  /** `parseInt(process.env.MAX_FILE_SIZE) || 20 * 1024 * 1024`, given what `parseInt` made of the
      variable (None: NaN). A zero falls back on the default; any other number, even a negative one,
      is the limit. */
  function MaxSize(parsed: Option<int>): (m: int)
    ensures parsed.None? || parsed == Some(0) ==> m == DefaultMaxSize
    ensures parsed.Some? && parsed.value != 0 ==> m == parsed.value
    ensures m != 0
  {
    if parsed.None? || parsed.value == 0 then DefaultMaxSize else parsed.value
  }

  /** A buffer is too large when it is longer than the limit; one of exactly the limit passes. */
  predicate TooLarge(length: nat, maxSize: int) {
    length > maxSize
  }

  /** `Math.round(maxSize / 1024 / 1024)`: the limit in MiB, halves rounded up. */
  function RoundedMiB(maxSize: int): (r: int)
    ensures r * 1048576 - 524288 <= maxSize < r * 1048576 + 524288
  {
    (maxSize + 524288) / 1048576
  }

  /** The rounding is the nearest whole number of MiB, and exact for the default. */
  lemma RoundedMiBDefault()
    ensures RoundedMiB(DefaultMaxSize) == 20
  {
  }

  function SizeMessage(maxSize: int): string {
    "文件大小超过限制 (" + IntToString(RoundedMiB(maxSize)) + "MB)"
  }

  // ---------------------------------------------------------------------------------------------
  // Data URLs

  const DataPrefix: string := "data:image/"
  const Base64Marker: string := ";base64,"

  predicate IsAsciiLetter(c: char) {
    'a' <= c <= 'z' || 'A' <= c <= 'Z'
  }

  /** What `[a-zA-Z]+` matches. */
  predicate ValidImageType(t: string) {
    t != [] && forall i :: 0 <= i < |t| ==> IsAsciiLetter(t[i])
  }

  /** What `.+` matches before the end of the string: at least one character, none a line terminator. */
  predicate ValidPayload(d: string) {
    d != [] && forall i :: 0 <= i < |d| ==> !IsLineTerminator(d[i])
  }

  /** The data URL of an image type and its Base64 payload. */
  function DataUrl(t: string, d: string): string {
    DataPrefix + t + Base64Marker + d
  }

  /** `imageData.match(/^data:image\/([a-zA-Z]+);base64,(.+)$/)`, giving the two groups. The letters
      cannot contain ';', so the type ends at the first ';'. */
  function ParseDataUrl(s: string): (r: Option<(string, string)>)
    ensures r.Some? ==> ValidImageType(r.value.0) && ValidPayload(r.value.1)
  {
    if !StartsWith(s, DataPrefix) then None
    else
      var rest := s[|DataPrefix|..];
      var k := FirstIndexOf(rest, ';');
      if k <= 0 then None
      else
        var after := rest[k..];
        if ValidImageType(rest[..k]) && StartsWith(after, Base64Marker) && ValidPayload(after[|Base64Marker|..])
        then Some((rest[..k], after[|Base64Marker|..]))
        else None
  }

  /** What the parse finds is what the URL is made of. */
  lemma ParseDataUrlSound(s: string)
    requires ParseDataUrl(s).Some?
    ensures s == DataUrl(ParseDataUrl(s).value.0, ParseDataUrl(s).value.1)
  {
    var (t, d) := ParseDataUrl(s).value;
    var n, m := |DataPrefix|, |Base64Marker|;
    var rest := s[n..];
    var k := FirstIndexOf(rest, ';');
    var after := rest[k..];
    assert s[..n] == DataPrefix && after[..m] == Base64Marker;
    assert t == rest[..k] && d == after[m..];
    Reassembled(s, n, k, m);
  }

  /** A string cut at three places is the concatenation of its four pieces. */
  lemma Reassembled(s: string, n: nat, k: nat, m: nat)
    requires n <= |s| && k <= |s| - n && m <= |s| - n - k
    ensures s == s[..n] + s[n..][..k] + s[n..][k..][..m] + s[n..][k..][m..]
  {
    var rest := s[n..];
    var after := rest[k..];
    assert after == after[..m] + after[m..];
    assert rest == rest[..k] + after;
    assert s == s[..n] + rest;
  }

  /** Every data URL of a valid type and payload parses back into them. */
  lemma ParseDataUrlComplete(t: string, d: string)
    requires ValidImageType(t) && ValidPayload(d)
    ensures ParseDataUrl(DataUrl(t, d)) == Some((t, d))
  {
    var s := DataUrl(t, d);
    assert s[..|DataPrefix|] == DataPrefix;
    var rest := s[|DataPrefix|..];
    assert rest == t + Base64Marker + d;
    assert rest[|t|] == ';';
    var k := FirstIndexOf(rest, ';');
    assert IsAsciiLetter(rest[k]) ==> k >= |t|;
    assert k == |t|;
    assert rest[..k] == t;
    assert rest[k..] == Base64Marker + d;
    assert (Base64Marker + d)[..|Base64Marker|] == Base64Marker;
    assert (Base64Marker + d)[|Base64Marker|..] == d;
  }

  // ---------------------------------------------------------------------------------------------
  // Type, extension and name

  const AllowedTypes: seq<string> := ["jpeg", "jpg", "png", "bmp", "webp"]

  /** `allowedTypes.includes(imageType.toLowerCase())`; the type holds ASCII letters only, so lower-casing
      them is all `toLowerCase` does. */
  predicate TypeAllowed(t: string) {
    LowerAscii(t) in AllowedTypes
  }

  /** The check ignores letter case: a type is allowed exactly when its lower-case spelling is. */
  lemma TypeAllowedIgnoresCase(t: string)
    ensures TypeAllowed(t) <==> TypeAllowed(LowerAscii(t))
  {
    LowerAsciiIdempotent(t);
  }

  /** `imageType === 'jpeg' ? 'jpg' : imageType`: only the exact lower-case "jpeg" is renamed, so "JPEG"
      keeps its case. */
  function Extension(t: string): (e: string)
    ensures e == "jpg" <==> t == "jpeg" || t == "jpg"
    ensures t != "jpeg" ==> e == t
  {
    if t == "jpeg" then "jpg" else t
  }

  /** An accepted type gives an accepted extension. */
  lemma ExtensionAllowed(t: string)
    requires TypeAllowed(t)
    ensures TypeAllowed(Extension(t))
  {
    if t == "jpeg" {
      assert LowerAscii("jpg") == "jpg";
    }
  }

  /** The stored name: the given name's stem, or "construction_" and the upload time in milliseconds,
      then '_', the random suffix, '.' and the extension. */
  function FileName(filename: Option<string>, suffix: string, now: nat, ext: string): (r: string)
    ensures EndsWith(r, "_" + suffix + "." + ext)
    ensures Truthy(filename) ==> StartsWith(r, ParseName(filename.value))
    ensures !Truthy(filename) ==> StartsWith(r, "construction_" + NatToString(now))
    ensures |r| == |"_" + suffix + "." + ext|
                   + if Truthy(filename) then |ParseName(filename.value)| else |"construction_" + NatToString(now)|
  {
    var tail := "_" + suffix + "." + ext;
    var head := if Truthy(filename) then ParseName(filename.value) else "construction_" + NatToString(now);
    assert (head + tail)[|head + tail| - |tail|..] == tail;
    assert (head + tail)[..|head|] == head;
    head + tail
  }

  /** multer's stored name for a file uploaded through a form: "construction_", the upload time, '_',
      the random suffix, then the original name's extension (possibly none). */
  function StoredName(originalName: string, suffix: string, now: nat): (r: string)
    ensures StartsWith(r, "construction_" + NatToString(now) + "_" + suffix)
    ensures EndsWith(r, Extname(originalName))
    ensures |r| == |"construction_" + NatToString(now) + "_" + suffix| + |Extname(originalName)|
  {
    var head := "construction_" + NatToString(now) + "_" + suffix;
    assert (head + Extname(originalName))[|head|..] == Extname(originalName);
    assert (head + Extname(originalName))[..|head|] == head;
    head + Extname(originalName)
  }

  // ---------------------------------------------------------------------------------------------
  // processImage

  /** What sharp reports about an image. */
  datatype Metadata = Metadata(width: int, height: int, format: string, size: int)

  /** What `processImage` hands back: the metadata as first read, and the path the image was compressed
      to before it was renamed back, if it was. */
  datatype Processed = Processed(info: Metadata, compressedTo: Option<string>)

  const LowResolution: string := "图片分辨率过低，建议不低于480x360"

  /** `filePath.replace(/(\.[^.]+)$/, '_compressed$1')`: "_compressed" goes before the last '.', provided
      at least one character follows it; '/' is not special, so a dot in a directory name can be taken. */
  function CompressedPath(p: string): (r: string)
    ensures r == p <==> (p != [] && p[|p| - 1] == '.') || forall j :: 0 <= j < |p| ==> p[j] != '.'
    ensures r != p ==> |r| == |p| + |"_compressed"|
  {
    var k := LastIndexOf(p, '.');
    if 0 <= k < |p| - 1 then p[..k] + "_compressed" + p[k..] else p
  }

  /** A path ending in a dot and an extension without dots keeps that extension behind "_compressed";
      only a path without such an ending is left as it is, and then sharp is asked to write the file
      onto itself. */
  lemma CompressedPathOfExtension(stem: string, ext: string)
    requires ext != [] && forall i :: 0 <= i < |ext| ==> ext[i] != '.'
    ensures CompressedPath(stem + "." + ext) == stem + "_compressed." + ext
  {
    var p := stem + "." + ext;
    assert p[|stem|] == '.';
    assert forall j :: |stem| < j < |p| ==> p[j] == ext[j - |stem| - 1];
    var k := LastIndexOf(p, '.');
    assert k == |stem|;
    assert p[..k] == stem;
    assert p[k..] == "." + ext;
  }

  /** `processImage(filePath)` given what reading the metadata gave (Err: sharp threw): images under
      480x360 are refused, those over 2048 on either side are compressed, the rest are kept; the
      metadata handed back is the original one either way. */
  function ProcessImage(filePath: string, meta: Result<Metadata>): (r: Result<Processed>)
    ensures r.Ok? <==> meta.Ok? && meta.value.width >= 480 && meta.value.height >= 360
    ensures meta.Ok? && r.Err? ==> r.message == LowResolution
    ensures meta.Err? ==> r == Err(meta.message)
    ensures r.Ok? ==> r.value.info == meta.value
    ensures r.Ok? ==> (r.value.compressedTo.Some? <==> meta.value.width > 2048 || meta.value.height > 2048)
    ensures r.Ok? && r.value.compressedTo.Some? ==> r.value.compressedTo.value == CompressedPath(filePath)
  {
    match meta
    case Err(m) => Err(m)
    case Ok(md) =>
      if md.width < 480 || md.height < 360 then Err(LowResolution)
      else if md.width > 2048 || md.height > 2048 then Ok(Processed(md, Some(CompressedPath(filePath))))
      else Ok(Processed(md, None))
  }

  /** The size check comes first: an image too narrow is refused even when it is also too tall to keep. */
  lemma RefusalBeforeCompression(filePath: string, md: Metadata)
    requires md.width < 480 && md.height > 2048
    ensures ProcessImage(filePath, Ok(md)) == Err(LowResolution)
  {
  }

  // ---------------------------------------------------------------------------------------------
  // The two upload endpoints

  /** The data of a successful upload; `url` is `${protocol}://${host}/uploads/${filename}`. */
  datatype Upload = Upload(filename: string, originalName: string, url: string, path: string, size: nat,
                           imageInfo: Metadata)

  datatype UploadResponse = UploadResponse(status: int, success: bool, message: string, data: Option<Upload>)

  function FileUrl(origin: string, filename: string): string {
    origin + "/uploads/" + filename
  }

  /** The handler of POST /base64. `mkdirError` is the message creating the upload directory threw, if
      it did; `decodedLength(d)` is the length of `Buffer.from(d, 'base64')`; `meta(path)` is what sharp
      reads from the written file; `origin` is `${req.protocol}://${req.get('host')}`. */
  function Base64Upload(imageData: Option<string>, filename: Option<string>, env: Option<string>,
                        defaultRoot: string, maxParsed: Option<int>, suffix: string, now: nat,
                        mkdirError: Option<string>, decodedLength: string -> nat,
                        meta: string -> Result<Metadata>, origin: string): (r: UploadResponse)
    ensures r.success <==> r.status == 200
    ensures r.status == 200 <==> r.data.Some?
    ensures r.status == 200 || r.status == 400 || r.status == 500
    ensures r.message != ""
    ensures !Truthy(imageData) ==> r == UploadResponse(400, false, "请提供图片数据", None)
    ensures Truthy(imageData) && ParseDataUrl(imageData.value).None? ==>
              r == UploadResponse(400, false, "无效的Base64图片数据", None)
    ensures Truthy(imageData) && ParseDataUrl(imageData.value).Some?
            && !TypeAllowed(ParseDataUrl(imageData.value).value.0) ==>
              r == UploadResponse(400, false, "不支持的图片格式", None)
  {
    if !Truthy(imageData) then UploadResponse(400, false, "请提供图片数据", None)
    else
      match ParseDataUrl(imageData.value)
      case None => UploadResponse(400, false, "无效的Base64图片数据", None)
      case Some((imageType, base64Data)) =>
        if !TypeAllowed(imageType) then UploadResponse(400, false, "不支持的图片格式", None)
        else
          var fileName := FileName(filename, suffix, now, Extension(imageType));
          var dir := UploadRoot(env, defaultRoot);
          if mkdirError.Some? then UploadResponse(500, false, "无法创建上传目录: " + dir + ", " + mkdirError.value, None)
          else
            var filePath := NodeJoin(dir, fileName);
            var length := decodedLength(base64Data);
            var maxSize := MaxSize(maxParsed);
            if TooLarge(length, maxSize) then UploadResponse(400, false, SizeMessage(maxSize), None)
            else
              match ProcessImage(filePath, meta(filePath))
              case Err(m) => UploadResponse(500, false, if m != "" then m else "Base64图片上传失败", None)
              case Ok(processed) =>
                var original := if Truthy(filename) then filename.value else fileName;
                UploadResponse(200, true, "图片上传成功",
                               Some(Upload(fileName, original, FileUrl(origin, fileName), filePath, length,
                                           processed.info)))
  }

  /** A Base64 upload is accepted exactly when every check passes, in the handler's order: data given,
      a data URL, an allowed type, the directory created, the size within the limit, the image read and
      large enough. The stored name, path and size are then the ones derived from the request. */
  lemma Base64UploadAccepted(imageData: Option<string>, filename: Option<string>, env: Option<string>,
                             defaultRoot: string, maxParsed: Option<int>, suffix: string, now: nat,
                             mkdirError: Option<string>, decodedLength: string -> nat,
                             meta: string -> Result<Metadata>, origin: string)
    ensures var r := Base64Upload(imageData, filename, env, defaultRoot, maxParsed, suffix, now, mkdirError,
                                  decodedLength, meta, origin);
      r.status == 200 <==>
        Truthy(imageData) && ParseDataUrl(imageData.value).Some?
        && TypeAllowed(ParseDataUrl(imageData.value).value.0) && mkdirError.None?
        && !TooLarge(decodedLength(ParseDataUrl(imageData.value).value.1), MaxSize(maxParsed))
        && ProcessImage(NodeJoin(UploadRoot(env, defaultRoot),
                                 FileName(filename, suffix, now, Extension(ParseDataUrl(imageData.value).value.0))),
                        meta(NodeJoin(UploadRoot(env, defaultRoot),
                                      FileName(filename, suffix, now, Extension(ParseDataUrl(imageData.value).value.0))))).Ok?
  {
  }

  /** The data of an accepted Base64 upload: the derived name, the path under the upload directory, the
      given name (or the derived one when none was given) and the decoded size. */
  lemma Base64UploadData(imageData: Option<string>, filename: Option<string>, env: Option<string>,
                         defaultRoot: string, maxParsed: Option<int>, suffix: string, now: nat,
                         mkdirError: Option<string>, decodedLength: string -> nat,
                         meta: string -> Result<Metadata>, origin: string)
    requires Base64Upload(imageData, filename, env, defaultRoot, maxParsed, suffix, now, mkdirError,
                          decodedLength, meta, origin).status == 200
    ensures Truthy(imageData) && ParseDataUrl(imageData.value).Some?
    ensures var (t, d) := ParseDataUrl(imageData.value).value;
      var name := FileName(filename, suffix, now, Extension(t));
      var u := Base64Upload(imageData, filename, env, defaultRoot, maxParsed, suffix, now, mkdirError,
                            decodedLength, meta, origin).data.value;
      u.filename == name && u.path == NodeJoin(UploadRoot(env, defaultRoot), name)
      && u.originalName == (if Truthy(filename) then filename.value else name)
      && u.size == decodedLength(d) && u.size <= MaxSize(maxParsed)
      && u.url == FileUrl(origin, name)
      && u.imageInfo == meta(u.path).value
  {
  }

  /** A well-formed upload of an allowed type is refused with the size message exactly when its data
      decodes to more than the limit, provided the directory exists. */
  lemma Base64SizeLimit(t: string, d: string, filename: Option<string>, env: Option<string>,
                        defaultRoot: string, maxParsed: Option<int>, suffix: string, now: nat,
                        decodedLength: string -> nat, meta: string -> Result<Metadata>, origin: string)
    requires ValidImageType(t) && ValidPayload(d) && TypeAllowed(t)
    ensures var r := Base64Upload(Some(DataUrl(t, d)), filename, env, defaultRoot, maxParsed, suffix, now,
                                  None, decodedLength, meta, origin);
      (r.status == 400 <==> TooLarge(decodedLength(d), MaxSize(maxParsed)))
      && (r.status == 400 ==> r.message == SizeMessage(MaxSize(maxParsed)))
  {
    ParseDataUrlComplete(t, d);
    assert DataUrl(t, d) != "";
  }

  /** A well-formed upload of an allowed type whose directory cannot be created is refused with 500,
      naming the directory and the error. */
  lemma Base64MkdirFailure(t: string, d: string, filename: Option<string>, env: Option<string>,
                           defaultRoot: string, maxParsed: Option<int>, suffix: string, now: nat, err: string,
                           decodedLength: string -> nat, meta: string -> Result<Metadata>, origin: string)
    requires ValidImageType(t) && ValidPayload(d) && TypeAllowed(t)
    ensures Base64Upload(Some(DataUrl(t, d)), filename, env, defaultRoot, maxParsed, suffix, now, Some(err),
                         decodedLength, meta, origin)
            == UploadResponse(500, false, "无法创建上传目录: " + UploadRoot(env, defaultRoot) + ", " + err, None)
  {
    ParseDataUrlComplete(t, d);
    assert DataUrl(t, d) != "";
  }

  /** A well-formed upload of an allowed type, within the limit and with its directory in place, whose
      image `processImage` refuses or cannot read is answered with 500 and the error's message, or a
      generic one when it has none. */
  lemma Base64ProcessFailure(t: string, d: string, filename: Option<string>, env: Option<string>,
                             defaultRoot: string, maxParsed: Option<int>, suffix: string, now: nat,
                             decodedLength: string -> nat, meta: string -> Result<Metadata>, origin: string)
    requires ValidImageType(t) && ValidPayload(d) && TypeAllowed(t)
    requires !TooLarge(decodedLength(d), MaxSize(maxParsed))
    requires var p := NodeJoin(UploadRoot(env, defaultRoot), FileName(filename, suffix, now, Extension(t)));
      ProcessImage(p, meta(p)).Err?
    ensures var p := NodeJoin(UploadRoot(env, defaultRoot), FileName(filename, suffix, now, Extension(t)));
      var m := ProcessImage(p, meta(p)).message;
      Base64Upload(Some(DataUrl(t, d)), filename, env, defaultRoot, maxParsed, suffix, now, None,
                   decodedLength, meta, origin)
      == UploadResponse(500, false, if m != "" then m else "Base64图片上传失败", None)
  {
    ParseDataUrlComplete(t, d);
    assert DataUrl(t, d) != "";
  }

  /** A file stored by multer, as `req.file` holds it. */
  datatype StoredFile = StoredFile(filename: string, originalName: string, path: string, size: nat)

  /** The handler of POST /single, after multer has stored the file: no file gives 400; so does an image
      `processImage` refuses, with its message. */
  function SingleUpload(file: Option<StoredFile>, meta: string -> Result<Metadata>, origin: string): (r: UploadResponse)
    ensures r.success <==> r.status == 200
    ensures r.status == 200 || r.status == 400
    ensures r.status == 200 <==> r.data.Some?
    ensures r.status == 200 <==> file.Some? && ProcessImage(file.value.path, meta(file.value.path)).Ok?
    ensures r.status == 200 ==>
              r.data.value.filename == file.value.filename && r.data.value.path == file.value.path
              && r.data.value.url == FileUrl(origin, file.value.filename)
              && r.data.value.originalName == file.value.originalName && r.data.value.size == file.value.size
              && r.data.value.imageInfo == meta(file.value.path).value
    ensures file.None? ==> r == UploadResponse(400, false, "请选择要上传的图片文件", None)
    ensures file.Some? && ProcessImage(file.value.path, meta(file.value.path)).Err? ==>
              var m := ProcessImage(file.value.path, meta(file.value.path)).message;
              r == UploadResponse(400, false, if m != "" then m else "图片上传处理失败", None)
  {
    match file
    case None => UploadResponse(400, false, "请选择要上传的图片文件", None)
    case Some(f) =>
      match ProcessImage(f.path, meta(f.path))
      case Err(m) => UploadResponse(400, false, if m != "" then m else "图片上传处理失败", None)
      case Ok(processed) =>
        UploadResponse(200, true, "图片上传成功",
                       Some(Upload(f.filename, f.originalName, FileUrl(origin, f.filename), f.path, f.size,
                                   processed.info)))
  }

  // ---------------------------------------------------------------------------------------------
  // The error middleware

  /** An error reaching the middleware: a multer error with its code, or any other error. */
  datatype UploadError = MulterError(code: string, message: string) | OtherError(message: string)

  /** The two multer limits get messages of their own; every other error, multer's included, is answered
      with its own message, or a generic one when it has none. All of them are 400. */
  function ErrorResponse(e: UploadError): (r: UploadResponse)
    ensures r.status == 400 && !r.success && r.data.None? && r.message != ""
    ensures e.MulterError? && e.code == "LIMIT_FILE_SIZE" ==> r.message == "文件大小超过限制，最大支持20MB"
    ensures e.MulterError? && e.code == "LIMIT_FILE_COUNT" ==> r.message == "一次只能上传一个文件"
    ensures !(e.MulterError? && e.code in ["LIMIT_FILE_SIZE", "LIMIT_FILE_COUNT"]) ==>
              r.message == (if e.message != "" then e.message else "文件上传失败")
  {
    if e.MulterError? && e.code == "LIMIT_FILE_SIZE" then UploadResponse(400, false, "文件大小超过限制，最大支持20MB", None)
    else if e.MulterError? && e.code == "LIMIT_FILE_COUNT" then UploadResponse(400, false, "一次只能上传一个文件", None)
    else UploadResponse(400, false, if e.message != "" then e.message else "文件上传失败", None)
  }

  /** A refused MIME type reaches the client as the filter's own message. */
  lemma FilterErrorAnswered(mimetype: string)
    requires mimetype !in AllowedMimes
    ensures ErrorResponse(OtherError(FileFilter(mimetype).message)).message == UnsupportedFile
  {
  }
}
