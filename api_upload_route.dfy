/** api/routes/upload.js: the serverless variant of the upload endpoints. Filter, limits, Base64
    parsing, naming, `processImage` and the error middleware are those of routes/upload.js; only the
    upload directory defaults to `/tmp/uploads`, the one writable place of the platform. */
module ApiUploadRoute {
  import opened Wrappers
  import opened Text
  import opened Paths
  import opened Analysis
  import opened UploadRoute

  const ApiUploadDir: string := "/tmp/uploads"
  const LocalUploadDir: string := "./uploads"

  /** The handler of POST /base64 with `/tmp/uploads` as the default directory. */
  function ApiBase64Upload(imageData: Option<string>, filename: Option<string>, env: Option<string>,
                           maxParsed: Option<int>, suffix: string, now: nat, mkdirError: Option<string>,
                           decodedLength: string -> nat, meta: string -> Result<Metadata>,
                           origin: string): (r: UploadResponse)
    ensures r.success <==> r.status == 200
    ensures r.status == 200 <==> r.data.Some?
    ensures r.status == 200 ==>
              Truthy(imageData) && ParseDataUrl(imageData.value).Some?
              && r.data.value.path == NodeJoin(UploadRoot(env, ApiUploadDir), r.data.value.filename)
              && r.data.value.filename ==
                 FileName(filename, suffix, now, Extension(ParseDataUrl(imageData.value).value.0))
    ensures !Truthy(imageData) ==> r == UploadResponse(400, false, "请提供图片数据", None)
    ensures Truthy(imageData) && ParseDataUrl(imageData.value).None? ==>
              r == UploadResponse(400, false, "无效的Base64图片数据", None)
    ensures Truthy(imageData) && ParseDataUrl(imageData.value).Some?
            && !TypeAllowed(ParseDataUrl(imageData.value).value.0) ==>
              r == UploadResponse(400, false, "不支持的图片格式", None)
  {
    var r := Base64Upload(imageData, filename, env, ApiUploadDir, maxParsed, suffix, now, mkdirError,
                          decodedLength, meta, origin);
    if r.status != 200 then r
    else
      Base64UploadData(imageData, filename, env, ApiUploadDir, maxParsed, suffix, now, mkdirError,
                       decodedLength, meta, origin);
      r
  }

  /** When `UPLOAD_PATH` is set the two variants answer every Base64 upload alike. */
  lemma ConfiguredVariantsAgree(imageData: Option<string>, filename: Option<string>, env: Option<string>,
                                maxParsed: Option<int>, suffix: string, now: nat, mkdirError: Option<string>,
                                decodedLength: string -> nat, meta: string -> Result<Metadata>, origin: string)
    requires Truthy(env)
    ensures ApiBase64Upload(imageData, filename, env, maxParsed, suffix, now, mkdirError, decodedLength, meta, origin)
            == Base64Upload(imageData, filename, env, LocalUploadDir, maxParsed, suffix, now, mkdirError,
                            decodedLength, meta, origin)
  {
    assert UploadRoot(env, ApiUploadDir) == UploadRoot(env, LocalUploadDir);
  }

  /** Without `UPLOAD_PATH`, a failure to create the directory names `/tmp/uploads`. */
  lemma MkdirFailureNamesTmp(t: string, d: string, filename: Option<string>, maxParsed: Option<int>,
                             suffix: string, now: nat, err: string, decodedLength: string -> nat,
                             meta: string -> Result<Metadata>, origin: string)
    requires ValidImageType(t) && ValidPayload(d) && TypeAllowed(t)
    ensures var r := ApiBase64Upload(Some(DataUrl(t, d)), filename, None, maxParsed, suffix, now, Some(err),
                                     decodedLength, meta, origin);
      r.status == 500 && r.message == "无法创建上传目录: " + ApiUploadDir + ", " + err
  {
    Base64MkdirFailure(t, d, filename, None, ApiUploadDir, maxParsed, suffix, now, err, decodedLength, meta,
                       origin);
  }
}
