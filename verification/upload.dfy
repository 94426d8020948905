/** The image upload middleware: the file filter on the MIME type, the 5 MB
    size limit, the storage key built from the clock, a random number and a
    sanitised file name, and the error middleware that turns every upload
    failure into a 400. The clock and the random number are parameters; the
    object store is a `locate` function from key to public URL. */
module Upload {
  import opened Outcomes
  import opened JsText
  import opened JsNumber
  import opened Http

  const AllowedMimeTypes: seq<JsString> :=
    [Lit("image/jpeg"), Lit("image/png"), Lit("image/jpg"), Lit("image/webp")]

  /** Five mebibytes, in bytes. */
  const MaxFileSize: nat := 5 * 1024 * 1024

  /** The part of an uploaded file the middleware looks at. */
  datatype IncomingFile = IncomingFile(mimetype: JsString, originalName: JsString, size: nat)

  /** What can go wrong while receiving the upload: an error of the upload
      library, with its code, or a plain `Error` such as the filter's. */
  datatype UploadFault =
    | MulterFault(code: JsString, message: JsString)
    | PlainFault(message: JsString)

  const FileTypeMessage := Lit("Invalid file type. Allowed types: JPG, JPEG, PNG, WEBP")
  const FileSizeCode := Lit("LIMIT_FILE_SIZE")

  /** The `fileFilter` callback: only the four image types are let through;
      any other type is the plain error the filter hands back. */
  function FileFilter(file: IncomingFile): (r: Result<(), UploadFault>)
    ensures r.Ok? <==> file.mimetype in AllowedMimeTypes
    ensures r.Err? ==> r.error == PlainFault(FileTypeMessage)
  {
    if file.mimetype in AllowedMimeTypes then Ok(()) else Err(PlainFault(FileTypeMessage))
  }

  /** The `limits.fileSize` check: a file of exactly the limit is accepted,
      one byte more is refused with the library's size error. */
  function SizeLimit(file: IncomingFile): (r: Result<(), UploadFault>)
    ensures r.Ok? <==> file.size <= MaxFileSize
    ensures r.Err? ==> r.error == MulterFault(FileSizeCode, Lit("File too large"))
  {
    if file.size <= MaxFileSize then Ok(()) else Err(MulterFault(FileSizeCode, Lit("File too large")))
  }

  // ---------------------------------------------------------------------
  // The storage key
  // ---------------------------------------------------------------------

  /** The units `/[^a-zA-Z0-9.]/` leaves alone. */
  predicate Kept(c: CodeUnit) {
    (0x41 <= c <= 0x5A) || (0x61 <= c <= 0x7A) || (0x30 <= c <= 0x39) || c == 0x2E
  }

  /** The units a cleaned name is made of: lower-case letters, digits, '.'
      and '-'. */
  predicate Safe(c: CodeUnit) {
    (0x61 <= c <= 0x7A) || (0x30 <= c <= 0x39) || c == 0x2E || c == 0x2D
  }

  function CleanUnit(c: CodeUnit): (d: CodeUnit)
    ensures Safe(d)
    ensures Kept(c) ==> d == AsciiLower(c)
    ensures !Kept(c) ==> d == 0x2D
  {
    if Kept(c) then AsciiLower(c) else 0x2D
  }

  /** `originalname.replace(/[^a-zA-Z0-9.]/g, '-').toLowerCase()`: every
      code unit outside the kept set becomes '-', and the letters that
      remain are lowered. */
  function CleanFileName(name: JsString): (r: JsString)
    ensures |r| == |name|
    ensures forall i :: 0 <= i < |r| ==> Safe(r[i])
    ensures forall i :: 0 <= i < |r| ==> Kept(name[i]) ==> SameIgnoringCase([r[i]], [name[i]])
    ensures forall i :: 0 <= i < |r| ==> Kept(name[i]) ==> r[i] == AsciiLower(name[i])
    ensures forall i :: 0 <= i < |r| ==> !Kept(name[i]) ==> r[i] == 0x2D
  {
    var r := seq(|name|, i requires 0 <= i < |name| => CleanUnit(name[i]));
    assert forall i :: 0 <= i < |r| ==> Kept(name[i]) ==> SameIgnoringCase([r[i]], [name[i]]) by {
      forall i | 0 <= i < |r| && Kept(name[i]) ensures SameIgnoringCase([r[i]], [name[i]]) {
        SameIgnoringCaseIsPointwise([r[i]], [name[i]]);
      }
    }
    r
  }

  /** Cleaning changes a name exactly when it holds a unit outside the safe
      set: names already made of safe units pass through unchanged. */
  lemma CleanFileNameFixedIff(name: JsString)
    ensures CleanFileName(name) == name <==> forall i :: 0 <= i < |name| ==> Safe(name[i])
  {
    if forall i :: 0 <= i < |name| ==> Safe(name[i]) {
      forall i | 0 <= i < |name| ensures CleanFileName(name)[i] == name[i] {
        assert CleanUnit(name[i]) == name[i];
      }
    }
  }

  /** Cleaning twice is cleaning once. */
  lemma CleanFileNameIdempotent(name: JsString)
    ensures CleanFileName(CleanFileName(name)) == CleanFileName(name)
  {
    CleanFileNameFixedIff(CleanFileName(name));
  }

  /** A name that differs from another only in the case of its letters is
      cleaned to the same text. */
  lemma CleanFileNameIgnoresCase(a: JsString, b: JsString)
    requires SameIgnoringCase(a, b)
    ensures CleanFileName(a) == CleanFileName(b)
  {
    SameIgnoringCaseIsPointwise(a, b);
    forall i | 0 <= i < |a| ensures CleanFileName(a)[i] == CleanFileName(b)[i] {
      assert AsciiLower(a[i]) == AsciiLower(b[i]);
      assert Kept(a[i]) <==> Kept(b[i]);
    }
  }

  const UploadsPrefix := Lit("uploads/")

  /** `uploads/${Date.now()}-${Math.round(Math.random() * 1E9)}-${cleanFileName}`,
      with `now` the milliseconds of the clock and `rand` the rounded random
      number, both written in decimal. */
  function ObjectKey(now: nat, rand: nat, name: JsString): (key: JsString)
    ensures |UploadsPrefix| <= |key| && key[..|UploadsPrefix|] == UploadsPrefix
    ensures |CleanFileName(name)| <= |key| && key[|key| - |CleanFileName(name)|..] == CleanFileName(name)
  {
    UploadsPrefix + KeyName(now, rand, name)
  }

  predicate NoSlash(s: JsString) {
    forall i :: 0 <= i < |s| ==> s[i] != 0x2F
  }

  lemma NoSlashConcat(a: JsString, b: JsString)
    requires NoSlash(a) && NoSlash(b)
    ensures NoSlash(a + b)
  {
    forall i | 0 <= i < |a + b| ensures (a + b)[i] != 0x2F {
      if i >= |a| {
        assert (a + b)[i] == b[i - |a|];
      }
    }
  }

  lemma DecimalNoSlash(n: nat)
    ensures NoSlash(Decimal(n))
  {
    var d := Decimal(n);
    forall i | 0 <= i < |d| ensures d[i] != 0x2F {
      assert IsDigit(d[i], 10);
    }
  }

  /** The part of the key after "uploads/". */
  function KeyName(now: nat, rand: nat, name: JsString): JsString {
    Decimal(now) + [0x2D] + Decimal(rand) + [0x2D] + CleanFileName(name)
  }

  lemma KeyNameNoSlash(now: nat, rand: nat, name: JsString)
    ensures NoSlash(KeyName(now, rand, name))
  {
    var dash: JsString := [0x2D];
    DecimalNoSlash(now);
    DecimalNoSlash(rand);
    NoSlashConcat(Decimal(now), dash);
    NoSlashConcat(Decimal(now) + dash, Decimal(rand));
    NoSlashConcat(Decimal(now) + dash + Decimal(rand), dash);
    NoSlashConcat(Decimal(now) + dash + Decimal(rand) + dash, CleanFileName(name));
  }

  lemma UploadsPrefixSlash()
    ensures forall i :: 0 <= i < |UploadsPrefix| ==> (UploadsPrefix[i] == 0x2F <==> i == |UploadsPrefix| - 1)
  {
  }

  /** Every key lies directly in the "uploads" folder: its only '/' is the
      one after "uploads", whatever the client called the file. */
  lemma ObjectKeyHasOneSlash(now: nat, rand: nat, name: JsString)
    ensures var key := ObjectKey(now, rand, name);
            forall i :: 0 <= i < |key| ==> (key[i] == 0x2F <==> i == |UploadsPrefix| - 1)
  {
    var key := ObjectKey(now, rand, name);
    var rest := KeyName(now, rand, name);
    var n := |UploadsPrefix|;
    KeyNameNoSlash(now, rand, name);
    UploadsPrefixSlash();
    assert key == UploadsPrefix + rest;
    forall i | 0 <= i < |key| ensures key[i] == 0x2F <==> i == n - 1 {
      if i >= n {
        assert key[i] == rest[i - n];
      } else {
        assert key[i] == UploadsPrefix[i];
      }
    }
  }

  lemma {:induction false} KeyNameTimestamp(now: nat, rand: nat, name: JsString)
    ensures ParseInt(KeyName(now, rand, name)) == Some(now)
  {
    var d := Decimal(now);
    var t := [0x2D] + Decimal(rand) + [0x2D] + CleanFileName(name);
    assert KeyName(now, rand, name) == d + t;
    assert t[0] == 0x2D;
    ParseIntStopsAtNonDigit(d, t);
  }

  /** The timestamp is read back from the key: `parseInt` of the text after
      "uploads/" is the clock value the key was made with. */
  lemma {:induction false} ObjectKeyTimestamp(now: nat, rand: nat, name: JsString)
    ensures var key := ObjectKey(now, rand, name);
            ParseInt(key[|UploadsPrefix|..]) == Some(now)
  {
    var key := ObjectKey(now, rand, name);
    assert key[|UploadsPrefix|..] == KeyName(now, rand, name);
    KeyNameTimestamp(now, rand, name);
  }

  // ---------------------------------------------------------------------
  // `upload.single('image')`
  // ---------------------------------------------------------------------

  /** Where the stored file ended up: its key and its public URL. */
  datatype StoredFile = StoredFile(key: JsString, location: JsString)

  /** The upload middleware for one request: no file is no file; otherwise
      the type filter runs first, then the size limit, and an accepted file
      is stored under a fresh key. */
  function ReceiveFile(file: Option<IncomingFile>, now: nat, rand: nat, locate: JsString -> JsString): (r: Result<Option<StoredFile>, UploadFault>)
    ensures file.None? ==> r == Ok(None)
    ensures file.Some? ==> (r.Ok? <==> file.value.mimetype in AllowedMimeTypes && file.value.size <= MaxFileSize)
    ensures file.Some? && file.value.mimetype !in AllowedMimeTypes ==> r == Err(PlainFault(FileTypeMessage))
    ensures file.Some? && file.value.mimetype in AllowedMimeTypes && file.value.size > MaxFileSize ==>
      r == Err(MulterFault(FileSizeCode, Lit("File too large")))
    ensures r.Ok? && file.Some? ==>
      var key := ObjectKey(now, rand, file.value.originalName);
      r.value == Some(StoredFile(key, locate(key)))
  {
    if file.None? then Ok(None)
    else
      var _ :- FileFilter(file.value);
      var _ :- SizeLimit(file.value);
      var key := ObjectKey(now, rand, file.value.originalName);
      Ok(Some(StoredFile(key, locate(key))))
  }

  /** `handleMulterError`: with no error the request goes on; the size error
      names the limit in whole megabytes; every other failure, of the
      library or not, is a 400 with its own message. */
  function HandleMulterError(err: Option<UploadFault>): (r: Option<HttpError>)
    ensures r.None? <==> err.None?
    ensures r.Some? ==> r.value.status == 400
    ensures err.Some? && err.value.MulterFault? && err.value.code == FileSizeCode ==>
      r == Some(HttpError(400, Lit("File too large. Max size is ") + Decimal(MaxFileSize / (1024 * 1024)) + Lit("MB")))
    ensures err.Some? && !(err.value.MulterFault? && err.value.code == FileSizeCode) ==>
      r == Some(HttpError(400, err.value.message))
  {
    match err
    case None => None
    case Some(MulterFault(code, message)) =>
      if code == FileSizeCode then
        Some(HttpError(400, Lit("File too large. Max size is ") + Decimal(MaxFileSize / (1024 * 1024)) + Lit("MB")))
      else Some(HttpError(400, message))
    case Some(PlainFault(message)) => Some(HttpError(400, message))
  }

  /** The size message reads "File too large. Max size is 5MB". */
  lemma SizeMessageSaysFive()
    ensures HandleMulterError(Some(MulterFault(FileSizeCode, Lit("File too large")))) ==
            Some(HttpError(400, Lit("File too large. Max size is 5MB")))
  {
    assert MaxFileSize / (1024 * 1024) == 5;
    assert Decimal(5) == Lit("5") by {
      assert Lit("5")[0] == 0x35;
    }
    var m := Lit("File too large. Max size is ") + Decimal(MaxFileSize / (1024 * 1024)) + Lit("MB");
    assert m == Lit("File too large. Max size is ") + Lit("5") + Lit("MB");
    assert |m| == |Lit("File too large. Max size is 5MB")|;
    assert forall i :: 0 <= i < |m| ==> m[i] == Lit("File too large. Max size is 5MB")[i];
    assert m == Lit("File too large. Max size is 5MB");
  }

  /** A file of the wrong type is refused with the filter's message, even
      when it is also too large: the type is checked first. */
  lemma {:induction false} WrongTypeWinsOverSize(file: IncomingFile, now: nat, rand: nat, locate: JsString -> JsString)
    requires file.mimetype !in AllowedMimeTypes
    ensures var r := ReceiveFile(Some(file), now, rand, locate);
            r.Err? && HandleMulterError(Some(r.error)) == Some(HttpError(400, FileTypeMessage))
  {
  }
}
