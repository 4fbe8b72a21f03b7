/** The image upload route of the server: the file filter multer applies to
    an incoming file, the name the stored file gets, and the reply of
    `POST /upload-image`. Paths follow Node's POSIX `path` rules. Writing the
    file to disk is not modelled. The unique part of the stored name is
    built by `UniqueSuffix` from the clock reading and the random draw,
    which are its parameters. */
module UploadRoute {
  import opened Common
  import opened Strings

  /** The alternatives of the pattern `/jpeg|jpg|png|gif|webp/`, in order. */
  const AllowedTokens: seq<string> := ["jpeg", "jpg", "png", "gif", "webp"]

  const OnlyImagesMessage := "Only image files are allowed"
  const NoFileMessage := "No image file provided"
  /** The message of multer's LIMIT_FILE_SIZE error. */
  const FileTooLargeMessage := "File too large"
  /** `limits.fileSize`: 5 MB. */
  const MaxFileSize := 5 * 1024 * 1024

  /** Some alternative of the pattern matches at the start of `s`. */
  predicate AlternativeAt(s: string) {
    exists k :: 0 <= k < |AllowedTokens| && AllowedTokens[k] <= s
  }

  /** `allowedTypes.test(s)`: the pattern has no anchors, so it is tried at
      every start position of `s`, from left to right. */
  function PatternTest(s: string): (r: bool)
    ensures r <==> exists k :: 0 <= k < |AllowedTokens| && Contains(s, AllowedTokens[k])
    decreases |s|
  {
    if AlternativeAt(s) then true
    else if s == [] then false
    else PatternTest(s[1..])
  }

  /** `s` without its trailing '/' characters. */
  function StripTrailingSlashes(s: string): (r: string)
    ensures r <= s
    ensures r == [] || r[|r| - 1] != '/'
    ensures forall i :: |r| <= i < |s| ==> s[i] == '/'
    decreases |s|
  {
    if s != [] && s[|s| - 1] == '/' then StripTrailingSlashes(s[..|s| - 1]) else s
  }

  /** `s.lastIndexOf(c)`: the index of the last `c` in `s`, or -1. */
  function LastIndexOf(s: string, c: char): (r: int)
    ensures -1 <= r < |s|
    ensures r >= 0 ==> s[r] == c
    ensures forall i :: r < i < |s| ==> s[i] != c
    decreases |s|
  {
    if s == [] then -1
    else if s[|s| - 1] == c then |s| - 1
    else LastIndexOf(s[..|s| - 1], c)
  }

  /** `path.basename`: the last segment of a path, trailing '/' ignored. */
  function Basename(path: string): (r: string)
    ensures '/' !in r
  {
    var trimmed := StripTrailingSlashes(path);
    trimmed[LastIndexOf(trimmed, '/') + 1..]
  }

  /** The base name ends the path without its trailing '/', and it is either
      all of that or preceded by a '/': it is the last segment. */
  lemma BasenameIsLastSegment(path: string)
    ensures var t, r := StripTrailingSlashes(path), Basename(path);
      && |r| <= |t| && r == t[|t| - |r|..]
      && (|r| == |t| || t[|t| - |r| - 1] == '/')
  {
    var t := StripTrailingSlashes(path);
    var slash := LastIndexOf(t, '/');
    assert Basename(path) == t[slash + 1..];
    assert |t| - |Basename(path)| - 1 == slash;
  }

  /** `path.extname`: the end of the last segment from its last '.'. It is
      empty when the segment has no '.', when its only '.' is its first
      character, and for the segment "..". */
  function ExtName(path: string): (r: string)
    ensures r == [] || (r[0] == '.' && '.' !in r[1..])
    ensures '/' !in r
    ensures |r| <= |Basename(path)| && r == Basename(path)[|Basename(path)| - |r|..]
  {
    var base := Basename(path);
    var dot := LastIndexOf(base, '.');
    if dot <= 0 || base == ".." then "" else base[dot..]
  }

  /** A last segment without '.' has no extension. */
  lemma NoDotNoExtension(path: string)
    requires '.' !in Basename(path)
    ensures ExtName(path) == ""
  {
  }

  /** The segment ".." has no extension, although its last '.' is not its
      first character. */
  lemma DotDotNoExtension(path: string)
    requires Basename(path) == ".."
    ensures ExtName(path) == ""
  {
  }

  /** A last segment whose only '.' is its first character (a dotfile such
      as ".env") has no extension. */
  lemma DotfileNoExtension(path: string)
    requires Basename(path) != [] && Basename(path)[0] == '.' && '.' !in Basename(path)[1..]
    ensures ExtName(path) == ""
  {
  }

  /** Otherwise the extension is the segment's end from its last '.'. */
  lemma ExtensionFromLastDot(path: string, dot: int)
    requires 0 < dot < |Basename(path)| && Basename(path)[dot] == '.'
    requires forall i :: dot < i < |Basename(path)| ==> Basename(path)[i] != '.'
    requires Basename(path) != ".."
    ensures ExtName(path) == Basename(path)[dot..]
  {
  }

  /** What multer's `fileFilter` callback reports. */
  datatype FilterDecision = Accept | Reject(message: string)

  /** The file filter: the lowered extension of the client's file name and
      the declared mimetype (not lowered) must both match the pattern. */
  function FileFilter(originalname: string, mimetype: string): (r: FilterDecision)
    ensures r == Accept <==>
      && (exists k :: 0 <= k < |AllowedTokens| && Contains(ToLower(ExtName(originalname)), AllowedTokens[k]))
      && (exists k :: 0 <= k < |AllowedTokens| && Contains(mimetype, AllowedTokens[k]))
    ensures r != Accept ==> r == Reject(OnlyImagesMessage)
  {
    var extOk := PatternTest(ToLower(ExtName(originalname)));
    var mimeOk := PatternTest(mimetype);
    if mimeOk && extOk then Accept else Reject(OnlyImagesMessage)
  }

  /** A name without an extension is rejected, whatever its mimetype. */
  lemma NoExtensionRejected(originalname: string, mimetype: string)
    requires ExtName(originalname) == ""
    ensures FileFilter(originalname, mimetype) == Reject(OnlyImagesMessage)
  {
    assert ToLower("") == "";
    forall k | 0 <= k < |AllowedTokens| ensures !Contains("", AllowedTokens[k]) {
      assert AllowedTokens[k] != "";
    }
  }

  /** The test is unanchored: a token anywhere in the lowered extension and
      anywhere in the mimetype is enough ("x.apngs" with "video/x-png-seq"
      passes). */
  lemma TokenAnywhereAccepted(originalname: string, mimetype: string, k: int, pre: string, post: string, k': int, pre': string, post': string)
    requires 0 <= k < |AllowedTokens| && ToLower(ExtName(originalname)) == pre + AllowedTokens[k] + post
    requires 0 <= k' < |AllowedTokens| && mimetype == pre' + AllowedTokens[k'] + post'
    ensures FileFilter(originalname, mimetype) == Accept
  {
    ContainsInside(pre, AllowedTokens[k], post);
    ContainsInside(pre', AllowedTokens[k'], post');
  }

  /** Only the extension is lowered: a mimetype without lower-case letters
      ("IMAGE/PNG") is rejected, whatever the file name. */
  lemma UpperCaseMimetypeRejected(originalname: string, mimetype: string)
    requires forall i :: 0 <= i < |mimetype| ==> !('a' <= mimetype[i] <= 'z')
    ensures FileFilter(originalname, mimetype) == Reject(OnlyImagesMessage)
  {
    NoLowerCaseNoMatch(mimetype);
  }

  /** Every alternative starts with a lower-case letter, so the pattern never
      matches a string without one. */
  lemma {:induction false} NoLowerCaseNoMatch(s: string)
    requires forall i :: 0 <= i < |s| ==> !('a' <= s[i] <= 'z')
    ensures !PatternTest(s)
    decreases |s|
  {
    forall k | 0 <= k < |AllowedTokens| ensures !(AllowedTokens[k] <= s) {
      assert 'a' <= AllowedTokens[k][0] <= 'z';
    }
    if s != [] {
      NoLowerCaseNoMatch(s[1..]);
    }
  }

  /** The stored name: 'image-', the unique suffix, and the extension of the
      client's file name as it was (not lowered). */
  function StoredFilename(suffix: string, originalname: string): (r: string)
    ensures "image-" <= r
    ensures |r| == 6 + |suffix| + |ExtName(originalname)| && r[6..6 + |suffix|] == suffix
    ensures |ExtName(originalname)| <= |r| && r[|r| - |ExtName(originalname)|..] == ExtName(originalname)
  {
    var r := "image-" + suffix + ExtName(originalname);
    assert r[6..6 + |suffix|] == suffix;
    assert r[|r| - |ExtName(originalname)|..] == ExtName(originalname);
    r
  }

  /** The shape of a unique suffix: digits and '-'. Such a suffix holds
      neither '.' nor '/'. */
  function IsUniqueSuffix(suffix: string): (r: bool)
    ensures r ==> '.' !in suffix && '/' !in suffix
  {
    forall i :: 0 <= i < |suffix| ==> '0' <= suffix[i] <= '9' || suffix[i] == '-'
  }

  /** The decimal digits of a natural number, as `String(n)` writes an
      integer: no leading zero. */
  function DecimalDigits(n: nat): (r: string)
    ensures r != [] && (r[0] == '0' ==> n == 0)
    ensures n == 0 ==> r == "0"
    ensures forall i :: 0 <= i < |r| ==> '0' <= r[i] <= '9'
  {
    var last := ['0' + (n % 10) as char];
    if n < 10 then last else DecimalDigits(n / 10) + last
  }

  /** The number a string of decimal digits denotes. */
  function DigitsValue(s: string): nat
    decreases |s|
  {
    if s == [] then 0
    else DigitsValue(s[..|s| - 1]) * 10 + (if '0' <= s[|s| - 1] <= '9' then (s[|s| - 1] - '0') as nat else 0)
  }

  /** Reading the digits back gives the number. */
  lemma {:induction false} DecimalDigitsRoundTrip(n: nat)
    ensures DigitsValue(DecimalDigits(n)) == n
    decreases n
  {
    var last := ['0' + (n % 10) as char];
    if n >= 10 {
      var d := DecimalDigits(n / 10) + last;
      assert d[..|d| - 1] == DecimalDigits(n / 10);
      DecimalDigitsRoundTrip(n / 10);
    }
  }

  /** `Date.now() + '-' + Math.round(Math.random() * 1E9)`, given the clock
      reading and the rounded random draw. */
  function UniqueSuffix(now: nat, draw: nat): (r: string)
    ensures IsUniqueSuffix(r)
    ensures exists i :: && 0 <= i < |r| && r[i] == '-'
                        && r[..i] == DecimalDigits(now) && r[i + 1..] == DecimalDigits(draw)
                        && DigitsValue(r[..i]) == now && DigitsValue(r[i + 1..]) == draw
  {
    var a, b := DecimalDigits(now), DecimalDigits(draw);
    var r := a + "-" + b;
    assert r[..|a|] == a && r[|a| + 1..] == b;
    DecimalDigitsRoundTrip(now);
    DecimalDigitsRoundTrip(draw);
    r
  }

  /** A plain name after a '/' is the base name of the whole path. */
  lemma BasenameAfterSlash(dir: string, name: string)
    requires name != [] && '/' !in name
    requires dir == [] || dir[|dir| - 1] == '/'
    ensures Basename(dir + name) == name
  {
    var s := dir + name;
    assert s[|s| - 1] == name[|name| - 1];
    assert StripTrailingSlashes(s) == s;
    var slash := LastIndexOf(s, '/');
    if dir != [] {
      assert s[|dir| - 1] == '/';
    }
    assert slash == |dir| - 1;
    assert s[slash + 1..] == name;
  }

  /** Where '/' and '.' occur in a stored name. */
  lemma StoredNameChars(suffix: string, ext: string, f: string)
    requires IsUniqueSuffix(suffix) && f == "image-" + suffix + ext
    requires ext == [] || (ext[0] == '.' && '.' !in ext[1..])
    requires '/' !in ext
    ensures '/' !in f
    ensures forall i :: 0 <= i < 6 + |suffix| ==> f[i] != '.'
    ensures forall i :: 6 + |suffix| < i < |f| ==> f[i] != '.'
    ensures ext != [] ==> f[6 + |suffix|] == '.'
  {
    var stem := "image-" + suffix;
    forall i | 0 <= i < |f| ensures f[i] != '/' && (i != |stem| ==> f[i] != '.') {
      if i > |stem| {
        assert f[i] == ext[1..][i - |stem| - 1];
      } else if i == |stem| {
        assert f[i] == ext[0];
      } else if i >= 6 {
        assert f[i] == suffix[i - 6];
      }
    }
  }

  /** The extension depends on the last segment only. */
  lemma ExtNameOfSameBasename(p: string, q: string)
    requires Basename(p) == Basename(q)
    ensures ExtName(p) == ExtName(q)
  {
  }

  /** A name without '/' is its own base name. */
  lemma BasenameOfPlainName(f: string)
    requires f != [] && '/' !in f
    ensures Basename(f) == f
  {
    assert f[|f| - 1] in f;
    assert StripTrailingSlashes(f) == f;
    assert f[0..] == f;
  }

  /** A plain name that ends in ".ext", with an earlier character before
      the '.', has the extension ".ext". */
  lemma ExtNameOfPlainName(f: string, dot: int)
    requires '/' !in f
    requires 0 < dot < |f| && f[dot] == '.' && f != ".."
    requires forall i :: dot < i < |f| ==> f[i] != '.'
    ensures ExtName(f) == f[dot..]
  {
    BasenameOfPlainName(f);
    ExtensionFromLastDot(f, dot);
  }

  /** A plain name without '.' has no extension. */
  lemma ExtNameOfDotlessName(f: string)
    requires f != [] && '/' !in f && '.' !in f
    ensures ExtName(f) == ""
  {
    BasenameOfPlainName(f);
    NoDotNoExtension(f);
  }

  /** The stored file has the extension of the client's file. */
  lemma StoredFilenameKeepsExtension(suffix: string, originalname: string)
    requires IsUniqueSuffix(suffix)
    ensures ExtName(StoredFilename(suffix, originalname)) == ExtName(originalname)
  {
    var ext := ExtName(originalname);
    var f := StoredFilename(suffix, originalname);
    assert f == "image-" + suffix + ext;
    StoredNameChars(suffix, ext, f);
    if ext == "" {
      assert forall i :: 0 <= i < |f| ==> f[i] != '.';
      ExtNameOfDotlessName(f);
    } else {
      ExtNameOfPlainName(f, 6 + |suffix|);
      assert f[6 + |suffix|..] == ext;
    }
  }

  /** A file the client sends in the 'image' field. */
  datatype IncomingFile = IncomingFile(originalname: string, mimetype: string, size: nat)

  /** The JSON body of a reply. */
  datatype ReplyBody = ImageUrlBody(imageUrl: string) | MessageBody(message: string)

  /** How the request ends: a JSON reply from the route, or an error multer
      hands to Express's error handler before the route runs. */
  datatype UploadOutcome = Json(status: nat, body: ReplyBody) | Failed(message: string)

  /** `${req.protocol}://${req.get('host')}/uploads/${filename}`: the URL
      under the uploads directory whose last segment is the file name. */
  function ImageUrl(protocol: string, host: string, filename: string): (r: string)
    ensures protocol + "://" + host + "/uploads/" <= r
    ensures |r| == |protocol| + |host| + 12 + |filename| && r[|r| - |filename|..] == filename
    ensures filename != [] && '/' !in filename ==> Basename(r) == filename
  {
    var dir := protocol + "://" + host + "/uploads/";
    assert filename != [] && '/' !in filename ==> Basename(dir + filename) == filename by {
      if filename != [] && '/' !in filename {
        BasenameAfterSlash(dir, filename);
      }
    }
    assert (dir + filename)[|dir|..] == filename;
    dir + filename
  }

  /** `POST /upload-image` after multer: no file gives 400; a file the
      filter rejects, or one over the size limit, never reaches the route;
      otherwise the reply holds the stored file's URL. */
  function UploadImage(file: Option<IncomingFile>, suffix: string, protocol: string, host: string): (r: UploadOutcome)
    ensures file.None? ==> r == Json(400, MessageBody(NoFileMessage))
    ensures (file.Some? && FileFilter(file.value.originalname, file.value.mimetype) != Accept)
              ==> r == Failed(OnlyImagesMessage)
    ensures r.Json? && r.status == 200 <==>
      && file.Some?
      && FileFilter(file.value.originalname, file.value.mimetype) == Accept
      && file.value.size <= MaxFileSize
    ensures (r.Json? && r.status == 200)
              ==> r.body == ImageUrlBody(ImageUrl(protocol, host, StoredFilename(suffix, file.value.originalname)))
  {
    match file
    case None => Json(400, MessageBody(NoFileMessage))
    case Some(f) =>
      match FileFilter(f.originalname, f.mimetype)
      case Reject(message) => Failed(message)
      case Accept =>
        if f.size > MaxFileSize then Failed(FileTooLargeMessage)
        else Json(200, ImageUrlBody(ImageUrl(protocol, host, StoredFilename(suffix, f.originalname))))
  }

  /** The URL handed back names the stored file, and the stored file keeps
      the extension of the upload: the last segment of the URL is the stored
      name, and its extension is the extension of the client's file name. */
  lemma ImageUrlNamesStoredFile(suffix: string, originalname: string, protocol: string, host: string)
    requires IsUniqueSuffix(suffix)
    ensures Basename(ImageUrl(protocol, host, StoredFilename(suffix, originalname)))
         == StoredFilename(suffix, originalname)
    ensures ExtName(ImageUrl(protocol, host, StoredFilename(suffix, originalname)))
         == ExtName(originalname)
  {
    var f := StoredFilename(suffix, originalname);
    var dir := protocol + "://" + host + "/uploads/";
    StoredNameChars(suffix, ExtName(originalname), f);
    assert f[0] == 'i';
    assert ImageUrl(protocol, host, f) == dir + f;
    BasenameAfterSlash(dir, f);
    BasenameOfPlainName(f);
    ExtNameOfSameBasename(dir + f, f);
    StoredFilenameKeepsExtension(suffix, originalname);
  }
}
