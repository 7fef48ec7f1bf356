/** commands/upload.js: the `upload` command. It checks its configuration when it is built,
    then obtains one token, lists the files under the path, keeps the images and uploads
    them one after another, stopping at the first upload the service rejects. */
module Upload {
  import opened Platform
  import opened RequestHelpers
  import opened AuthHelpers

  const AllowedImageFormats: seq<string> := ["png", "jpeg", "jpg", "bmp", "tiff", "webp", "gif"]

  const PathMissing := "Path doesn't exist."
  const UploadUrlMissing := "Upload url must be provided."
  const AuthMissing := "Token or accessKey must be provided."
  const EnvironmentMissing := "Environment must be provided."

  // ---------------------------------------------------------------------------
  // Image format check (`_validateImageFormat`)
  // ---------------------------------------------------------------------------

  /** The last segment of a path, as `Path.parse(...).base`. */
  function Basename(p: Path): string {
    if p == [] then "" else p[|p| - 1]
  }

  /** The position of the last `.` in `s`, if any. */
  function LastDot(s: string): (r: Option<nat>)
    ensures r.Some? ==> r.value < |s| && s[r.value] == '.' && forall k :: r.value < k < |s| ==> s[k] != '.'
    ensures r.None? ==> forall k :: 0 <= k < |s| ==> s[k] != '.'
  {
    if s == [] then None
    else if s[|s| - 1] == '.' then Some(|s| - 1)
    else LastDot(s[..|s| - 1])
  }

  /** `Path.parse(...).ext` of a base name: from the last dot to the end, except that a name
      without a dot, a name whose last dot is its first character, and `..` have none. */
  function ExtName(base: string): string {
    match LastDot(base)
    case None => ""
    case Some(i) => if i == 0 || base == ".." then "" else base[i..]
  }

  /** `toLowerCase` on ASCII letters. */
  function LowerChar(c: char): char {
    if 'A' <= c <= 'Z' then (c as int + 32) as char else c
  }

  function ToLowerCase(s: string): string {
    seq(|s|, k requires 0 <= k < |s| => LowerChar(s[k]))
  }

  /** `s.replace('.', '')`: a string pattern replaces its first occurrence only. */
  function ReplaceFirstDot(s: string): string {
    if s == [] then []
    else if s[0] == '.' then s[1..]
    else [s[0]] + ReplaceFirstDot(s[1..])
  }

  /** `_validateImageFormat`. */
  predicate ValidateImageFormat(imagePath: Path) {
    ReplaceFirstDot(ToLowerCase(ExtName(Basename(imagePath)))) in AllowedImageFormats
  }

  /** No allowed format is empty or contains a dot, so neither does anything that lowercases to one. */
  lemma FormatHasNoDot(x: string)
    requires ToLowerCase(x) in AllowedImageFormats
    ensures x != "" && forall k :: 0 <= k < |x| ==> x[k] != '.'
  {
    var l := ToLowerCase(x);
    assert l != "" && forall k :: 0 <= k < |l| ==> l[k] != '.';
    forall k | 0 <= k < |x|
      ensures x[k] != '.'
    {
      assert l[k] == LowerChar(x[k]);
    }
  }

  /** Lowercasing an extension keeps its leading dot, so the replace removes exactly that dot. */
  lemma StripLoweredExtension(b: string, i: nat)
    requires i < |b| && b[i] == '.'
    ensures ReplaceFirstDot(ToLowerCase(b[i..])) == ToLowerCase(b[i + 1..])
  {
    var l := ToLowerCase(b[i..]);
    assert l[0] == '.';
    assert l[1..] == ToLowerCase(b[i + 1..]);
  }

  /** A path names an image exactly when its base name has a dot that is not its first
      character and what follows that dot, lowercased, is an allowed format. (Such a dot is
      necessarily the last one, as no allowed format contains a dot.) */
  lemma ImageFormatIff(p: Path)
    ensures ValidateImageFormat(p) <==>
      exists i :: 0 < i < |Basename(p)| && Basename(p)[i] == '.' && ToLowerCase(Basename(p)[i + 1..]) in AllowedImageFormats
  {
    var b := Basename(p);
    if ValidateImageFormat(p) {
      var i := ImageExtensionDot(p);
    }
    if exists i :: 0 < i < |b| && b[i] == '.' && ToLowerCase(b[i + 1..]) in AllowedImageFormats {
      var i :| 0 < i < |b| && b[i] == '.' && ToLowerCase(b[i + 1..]) in AllowedImageFormats;
      ImageExtensionAccepted(p, i);
    }
  }

  /** An accepted path's base name has a non-leading dot followed by an allowed format. */
  lemma ImageExtensionDot(p: Path) returns (i: nat)
    requires ValidateImageFormat(p)
    ensures 0 < i < |Basename(p)| && Basename(p)[i] == '.' && ToLowerCase(Basename(p)[i + 1..]) in AllowedImageFormats
  {
    var b := Basename(p);
    assert ReplaceFirstDot(ToLowerCase("")) == "";
    i := LastDot(b).value;
    assert i != 0 && ExtName(b) == b[i..];
    StripLoweredExtension(b, i);
  }

  /** A non-leading dot followed by an allowed format makes the path accepted. */
  lemma ImageExtensionAccepted(p: Path, i: nat)
    requires 0 < i < |Basename(p)| && Basename(p)[i] == '.' && ToLowerCase(Basename(p)[i + 1..]) in AllowedImageFormats
    ensures ValidateImageFormat(p)
  {
    var b := Basename(p);
    FormatHasNoDot(b[i + 1..]);
    assert forall k :: i < k < |b| ==> b[k] == b[i + 1..][k - i - 1];
    assert LastDot(b) == Some(i);
    assert b != "..";
    StripLoweredExtension(b, i);
  }

  /** A base name without a dot is rejected. */
  lemma NoExtensionRejected(p: Path)
    requires forall k :: 0 <= k < |Basename(p)| ==> Basename(p)[k] != '.'
    ensures !ValidateImageFormat(p)
  {
    ImageFormatIff(p);
  }

  /** A dotfile whose only dot is the leading one (`.png`) is rejected. */
  lemma DotfileRejected(p: Path)
    requires forall k :: 0 < k < |Basename(p)| ==> Basename(p)[k] != '.'
    ensures !ValidateImageFormat(p)
  {
    ImageFormatIff(p);
  }

  /** Only the last extension counts: when what follows the last dot is not an allowed
      format (`a.png.txt`), the path is rejected whatever comes before it. */
  lemma OnlyLastExtensionCounts(p: Path, j: nat)
    requires j < |Basename(p)| && Basename(p)[j] == '.'
    requires forall k :: j < k < |Basename(p)| ==> Basename(p)[k] != '.'
    requires ToLowerCase(Basename(p)[j + 1..]) !in AllowedImageFormats
    ensures !ValidateImageFormat(p)
  {
    var b := Basename(p);
    assert LastDot(b) == Some(j);
    assert ReplaceFirstDot(ToLowerCase("")) == "";
    if j != 0 && b != ".." {
      StripLoweredExtension(b, j);
    }
  }

  /** Case does not matter: `A.PNG` is an image. */
  lemma UpperCaseAccepted()
    ensures ValidateImageFormat(["photos", "A.PNG"])
  {
    var b := Basename(["photos", "A.PNG"]);
    assert b == "A.PNG" && b[1] == '.' && b[2..] == "PNG";
    assert LowerChar('P') == 'p' && LowerChar('N') == 'n' && LowerChar('G') == 'g';
    assert ToLowerCase("PNG") == "png";
    ImageFormatIff(["photos", "A.PNG"]);
  }

  // ---------------------------------------------------------------------------
  // Directory scan (`_scanDirectorySync`)
  // ---------------------------------------------------------------------------

  /** A directory entry as `readdirSync` names it and `statSync` classifies it: a directory
      with its own listing, or anything else. */
  datatype Entry = File(name: string) | Dir(name: string, listing: seq<Entry>)

  /** `file.startsWith('.')`. */
  predicate Hidden(name: string) {
    |name| > 0 && name[0] == '.'
  }

  /** The files the scan appends for a listing, in listing order, each directory's files in
      place of the directory. */
  function Walk(path: Path, listing: seq<Entry>): seq<Path>
    decreases listing
  {
    if listing == [] then []
    else Walk(path, listing[..|listing| - 1]) + Visit(path, listing[|listing| - 1])
  }

  function Visit(path: Path, e: Entry): seq<Path>
    decreases e
  {
    if Hidden(e.name) then []
    else
      match e
      case File(n) => [path + [n]]
      case Dir(n, listing) => Walk(path + [n], listing)
  }

  /** `rel` leads, through entries none of which is hidden, from a listing to a non-directory. */
  ghost predicate Reaches(listing: seq<Entry>, rel: seq<string>)
    decreases listing
  {
    exists i :: 0 <= i < |listing| && EntryReaches(listing[i], rel)
  }

  ghost predicate EntryReaches(e: Entry, rel: seq<string>)
    decreases e
  {
    && |rel| > 0
    && rel[0] == e.name
    && !Hidden(e.name)
    && match e
       case File(_) => |rel| == 1
       case Dir(_, listing) => Reaches(listing, rel[1..])
  }

  /** The scan returns exactly the paths below `path` that lead to a non-directory through
      non-hidden names: no directory and no hidden entry, at any depth, is in the result. */
  lemma {:induction false} WalkIff(path: Path, listing: seq<Entry>, p: Path)
    ensures p in Walk(path, listing) <==> |path| <= |p| && p[..|path|] == path && Reaches(listing, p[|path|..])
    decreases listing
  {
    if listing != [] {
      var n := |listing|;
      var init, last := listing[..n - 1], listing[n - 1];
      WalkIff(path, init, p);
      VisitIff(path, last, p);
      if |path| <= |p| && p[..|path|] == path {
        var rel := p[|path|..];
        if Reaches(listing, rel) {
          var i :| 0 <= i < n && EntryReaches(listing[i], rel);
          if i < n - 1 {
            assert init[i] == listing[i];
          }
        }
        if Reaches(init, rel) {
          var i :| 0 <= i < n - 1 && EntryReaches(init[i], rel);
          assert listing[i] == init[i];
        }
        if EntryReaches(last, rel) {
          assert EntryReaches(listing[n - 1], rel);
        }
      }
    }
  }

  lemma {:induction false} VisitIff(path: Path, e: Entry, p: Path)
    ensures p in Visit(path, e) <==> |path| <= |p| && p[..|path|] == path && EntryReaches(e, p[|path|..])
    decreases e
  {
    if !Hidden(e.name) {
      match e
      case File(n) =>
        if |path| <= |p| && p[..|path|] == path && EntryReaches(e, p[|path|..]) {
          assert p[|path|..] == [n];
          assert p == p[..|path|] + p[|path|..];
        }
        assert (path + [n])[..|path|] == path && (path + [n])[|path|..] == [n];
      case Dir(n, listing) =>
        var q := path + [n];
        WalkIff(q, listing, p);
        if |path| <= |p| && p[..|path|] == path {
          var rel := p[|path|..];
          if |rel| > 0 {
            assert p[..|q|] == p[..|path|] + [rel[0]];
            assert p[|q|..] == rel[1..];
          }
        }
        if p in Walk(q, listing) {
          assert p[..|path|] == p[..|q|][..|path|];
        }
    }
  }

  /** Every path a non-hidden reach takes is non-empty and none of its names is hidden. */
  lemma {:induction false} ReachesVisible(listing: seq<Entry>, rel: seq<string>)
    requires Reaches(listing, rel)
    ensures |rel| > 0 && forall k :: 0 <= k < |rel| ==> !Hidden(rel[k])
    decreases listing
  {
    var i :| 0 <= i < |listing| && EntryReaches(listing[i], rel);
    match listing[i]
    case File(_) =>
    case Dir(_, sub) =>
      ReachesVisible(sub, rel[1..]);
      forall k | 0 < k < |rel|
        ensures !Hidden(rel[k])
      {
        assert rel[k] == rel[1..][k - 1];
      }
  }

  /** Hidden entries are never returned nor descended into, at any depth. */
  lemma WalkSkipsHidden(path: Path, listing: seq<Entry>, p: Path)
    requires p in Walk(path, listing)
    ensures |path| < |p| && p[..|path|] == path
    ensures forall k :: |path| <= k < |p| ==> !Hidden(p[k])
  {
    WalkIff(path, listing, p);
    var rel := p[|path|..];
    ReachesVisible(listing, rel);
    forall k | |path| <= k < |p|
      ensures !Hidden(p[k])
    {
      assert p[k] == rel[k - |path|];
    }
  }

  /** `_scanDirectorySync(path, fileList)`: appends to `fileList`, in listing order, every
      non-hidden non-directory below `path`, descending into non-hidden directories first. */
  method ScanDirectory(path: Path, listing: seq<Entry>, fileList: seq<Path>) returns (r: seq<Path>)
    ensures r == fileList + Walk(path, listing)
    decreases listing
  {
    r := fileList;
    for i := 0 to |listing|
      invariant r == fileList + Walk(path, listing[..i])
    {
      var file := listing[i];
      assert listing[..i + 1][..i] == listing[..i];
      if Hidden(file.name) {
        continue;
      }
      var resolvedFilePath := path + [file.name];
      if file.Dir? {
        r := ScanDirectory(resolvedFilePath, file.listing, r);
      } else {
        r := r + [resolvedFilePath];
      }
    }
    assert listing[..|listing|] == listing;
  }

  // ---------------------------------------------------------------------------
  // File list
  // ---------------------------------------------------------------------------

  /** `files.filter(file => _validateImageFormat(file))`. */
  function FilterImages(files: seq<Path>): (r: seq<Path>)
    ensures forall f :: f in r <==> f in files && ValidateImageFormat(f)
    ensures |r| <= |files|
  {
    if files == [] then []
    else (if ValidateImageFormat(files[0]) then [files[0]] else []) + FilterImages(files[1..])
  }

  /** The filter keeps the order of the list it is given. */
  lemma {:induction false} FilterImagesAppend(a: seq<Path>, b: seq<Path>)
    ensures FilterImages(a + b) == FilterImages(a) + FilterImages(b)
  {
    if a != [] {
      assert (a + b)[1..] == a[1..] + b;
      FilterImagesAppend(a[1..], b);
    } else {
      assert a + b == b;
    }
  }

  /** What `lstatSync(path)` reports for the command's path. */
  datatype Target = RegularFile | Directory(listing: seq<Entry>) | OtherKind

  /** The list `execute` uploads: the path itself for a file, the scan for a directory,
      nothing for anything else; then only the images. */
  function CollectFiles(path: Path, target: Target): seq<Path> {
    FilterImages(
      match target
      case RegularFile => [path]
      case Directory(listing) => Walk(path, listing)
      case OtherKind => [])
  }

  /** A single file gives itself when it is an image and nothing otherwise; a directory gives
      exactly its visible files that are images. */
  lemma CollectedFiles(path: Path, target: Target, f: Path)
    ensures target.RegularFile? ==> CollectFiles(path, target) == if ValidateImageFormat(path) then [path] else []
    ensures target.Directory? ==>
      (f in CollectFiles(path, target) <==>
         ValidateImageFormat(f) && |path| <= |f| && f[..|path|] == path && Reaches(target.listing, f[|path|..]))
    ensures target.OtherKind? ==> CollectFiles(path, target) == []
  {
    if target.RegularFile? {
      assert [path][1..] == [];
    }
    if target.Directory? {
      WalkIff(path, target.listing, f);
    }
  }

  // ---------------------------------------------------------------------------
  // Uploads (`_upload` and the loop of `execute`)
  // ---------------------------------------------------------------------------

  /** The POST `_upload` issues for one file. */
  function UploadRequest<J>(filePath: Path, token: string, uploadUrl: string, rt: Runtime<J>): Request {
    PostRequest(uploadUrl, Config(Some(filePath), Some(token), None), rt)
  }

  /** The token travels as `config.authorization`: the upload carries the form's headers and,
      only when the token is non-empty, an `Authorization` header holding it. */
  lemma UploadRequestHeaders<J>(filePath: Path, token: string, uploadUrl: string, rt: Runtime<J>)
    ensures var o := UploadRequest(filePath, token, uploadUrl, rt).options;
      && o.httpMethod == "POST"
      && o.headers == if token == "" then rt.formHeaders(filePath) else rt.formHeaders(filePath)[Authorization := token]
    ensures UploadRequest(filePath, token, uploadUrl, rt).payload == [FormFile("file", filePath)]
  {
  }

  /** `_upload`'s handling of the response: 400 and above throws the body's `message`,
      anything below is the parsed body. A body that does not parse throws the parse error
      whatever the status, and an error body that parses to `null` throws the error that
      reading its `message` throws. */
  function UploadOutcome<J>(resp: Response, rt: Runtime<J>): (r: Result<J>)
    ensures r.Ok? ==> resp.statusCode < 400 && rt.parseJson(resp.data) == Ok(r.value)
    ensures resp.statusCode < 400 ==> r == rt.parseJson(resp.data)
    ensures rt.parseJson(resp.data).Err? ==> r == Err(rt.parseJson(resp.data).error)
    ensures resp.statusCode >= 400 && rt.parseJson(resp.data).Ok? ==>
      match rt.messageOf(rt.parseJson(resp.data).value)
      case Err(e) => r == Err(e)
      case Ok(m) => r == Err(ErrorMessage(m))
  {
    if resp.statusCode >= 400 then
      match rt.parseJson(resp.data)
      case Err(e) => Err(e)
      case Ok(error) =>
        match rt.messageOf(error)
        case Err(e) => Err(e)
        case Ok(message) => Err(ErrorMessage(message))
    else
      rt.parseJson(resp.data)
  }

  /** The response to one file's upload, as `_upload` returns or throws it. */
  function UploadOne<J>(f: Path, token: string, uploadUrl: string, rt: Runtime<J>, server: Request -> Response): Result<J> {
    UploadOutcome(server(UploadRequest(f, token, uploadUrl, rt)), rt)
  }

  /** The upload loop of `execute` over `files`: one POST per file in order, the result
      filled by path, and the first failure ends the loop with that file's error. */
  function UploadRun<J>(files: seq<Path>, token: string, uploadUrl: string, rt: Runtime<J>,
                        server: Request -> Response): Run<map<Path, J>>
    decreases |files|
  {
    if files == [] then Run([], Ok(map[]))
    else
      var before := UploadRun(files[..|files| - 1], token, uploadUrl, rt, server);
      if before.outcome.Err? then before
      else
        var f := files[|files| - 1];
        var req := UploadRequest(f, token, uploadUrl, rt);
        match UploadOutcome(server(req), rt)
        case Err(e) => Run(before.sent + [req], Err(e))
        case Ok(v) => Run(before.sent + [req], Ok(before.outcome.value[f := v]))
  }

  /** Once a prefix of the list fails, the rest of the list is never uploaded. */
  lemma {:induction false} UploadRunStopsAtFailure<J>(files: seq<Path>, k: nat, token: string, uploadUrl: string,
                                                      rt: Runtime<J>, server: Request -> Response)
    requires k <= |files|
    requires UploadRun(files[..k], token, uploadUrl, rt, server).outcome.Err?
    ensures UploadRun(files, token, uploadUrl, rt, server) == UploadRun(files[..k], token, uploadUrl, rt, server)
    decreases |files|
  {
    if k < |files| {
      var init := files[..|files| - 1];
      assert init[..k] == files[..k];
      UploadRunStopsAtFailure(init, k, token, uploadUrl, rt, server);
    } else {
      assert files[..k] == files;
    }
  }

  /** The requests sent are the uploads of a prefix of the list, in list order, each carrying
      the same token; all files are sent when the run succeeds. */
  lemma {:induction false} UploadRunSent<J>(files: seq<Path>, token: string, uploadUrl: string,
                                            rt: Runtime<J>, server: Request -> Response)
    ensures var run := UploadRun(files, token, uploadUrl, rt, server);
      && |run.sent| <= |files|
      && (forall k :: 0 <= k < |run.sent| ==> run.sent[k] == UploadRequest(files[k], token, uploadUrl, rt))
      && (run.outcome.Ok? ==> |run.sent| == |files|)
      && (run.outcome.Err? ==> |run.sent| > 0)
    decreases |files|
  {
    if files != [] {
      var init := files[..|files| - 1];
      UploadRunSent(init, token, uploadUrl, rt, server);
    }
  }

  /** The run succeeds exactly when every file's upload succeeds. */
  lemma {:induction false} UploadRunOkIff<J>(files: seq<Path>, token: string, uploadUrl: string,
                                             rt: Runtime<J>, server: Request -> Response)
    ensures UploadRun(files, token, uploadUrl, rt, server).outcome.Ok? <==>
      forall k :: 0 <= k < |files| ==> UploadOne(files[k], token, uploadUrl, rt, server).Ok?
    decreases |files|
  {
    if files != [] {
      var n := |files|;
      var init := files[..n - 1];
      UploadRunOkIff(init, token, uploadUrl, rt, server);
      assert forall k :: 0 <= k < n - 1 ==> init[k] == files[k];
      if UploadRun(init, token, uploadUrl, rt, server).outcome.Err? {
        var k :| 0 <= k < n - 1 && !UploadOne(init[k], token, uploadUrl, rt, server).Ok?;
        assert !UploadOne(files[k], token, uploadUrl, rt, server).Ok?;
      }
    }
  }

  /** A successful run maps exactly the listed files, each to its own parsed response. */
  lemma {:induction false} UploadRunResult<J>(files: seq<Path>, token: string, uploadUrl: string,
                                              rt: Runtime<J>, server: Request -> Response)
    requires UploadRun(files, token, uploadUrl, rt, server).outcome.Ok?
    ensures var result := UploadRun(files, token, uploadUrl, rt, server).outcome.value;
      forall f :: (f in result <==> f in files)
                  && (f in files ==> UploadOne(f, token, uploadUrl, rt, server).Ok?
                                     && result[f] == UploadOne(f, token, uploadUrl, rt, server).value)
    decreases |files|
  {
    if files != [] {
      var n := |files|;
      var init, last := files[..n - 1], files[n - 1];
      var before := UploadRun(init, token, uploadUrl, rt, server);
      UploadRunResult(init, token, uploadUrl, rt, server);
      assert files == init + [last];
      var v := UploadOne(last, token, uploadUrl, rt, server).value;
      assert UploadRun(files, token, uploadUrl, rt, server).outcome.value == before.outcome.value[last := v];
    }
  }

  /** When the files before `k` upload and file `k` fails, the run ends with file `k`'s error
      after exactly `k + 1` requests: the remaining files are not uploaded. */
  lemma UploadRunFirstFailure<J>(files: seq<Path>, k: nat, token: string, uploadUrl: string,
                                 rt: Runtime<J>, server: Request -> Response)
    requires k < |files|
    requires forall j :: 0 <= j < k ==> UploadOne(files[j], token, uploadUrl, rt, server).Ok?
    requires UploadOne(files[k], token, uploadUrl, rt, server).Err?
    ensures UploadRun(files, token, uploadUrl, rt, server).outcome == Err(UploadOne(files[k], token, uploadUrl, rt, server).error)
    ensures |UploadRun(files, token, uploadUrl, rt, server).sent| == k + 1
  {
    var pre := files[..k];
    UploadRunOkIff(pre, token, uploadUrl, rt, server);
    UploadRunSent(pre, token, uploadUrl, rt, server);
    assert files[..k + 1][..k] == pre;
    UploadRunStopsAtFailure(files, k + 1, token, uploadUrl, rt, server);
  }

  // ---------------------------------------------------------------------------
  // The command
  // ---------------------------------------------------------------------------

  /** The `cmd` object the constructor is given. */
  datatype Command = Command(
    path: Path,
    environment: Option<string>,
    key: Option<string>,
    uploadUrl: Option<string>,
    tokenUrl: Option<string>,
    output: Option<string>)

  /** The constructor's checks: the error of the first one that fails, if any. */
  function ConfigError(cmd: Command, pathExists: bool): (r: Option<string>)
    ensures !pathExists ==> r == Some(PathMissing)
    ensures r == None <==>
      pathExists && Truthy(cmd.uploadUrl) && (Truthy(cmd.tokenUrl) || (Truthy(cmd.key) && Truthy(cmd.environment)))
    ensures pathExists && Truthy(cmd.uploadUrl) && Truthy(cmd.tokenUrl) ==> r == None
  {
    if !pathExists then Some(PathMissing)
    else if !Truthy(cmd.uploadUrl) then Some(UploadUrlMissing)
    else if !Truthy(cmd.tokenUrl) && !Truthy(cmd.key) then Some(AuthMissing)
    else if !Truthy(cmd.tokenUrl) && Truthy(cmd.key) && !Truthy(cmd.environment) then Some(EnvironmentMissing)
    else None
  }

  /** The constructor's requirements, each with the error reported when it does not hold. */
  function Requirements(cmd: Command, pathExists: bool): seq<(bool, string)> {
    [ (pathExists, PathMissing),
      (Truthy(cmd.uploadUrl), UploadUrlMissing),
      (Truthy(cmd.tokenUrl) || Truthy(cmd.key), AuthMissing),
      (Truthy(cmd.tokenUrl) || !Truthy(cmd.key) || Truthy(cmd.environment), EnvironmentMissing) ]
  }

  /** The error of the first requirement that does not hold. */
  function FirstUnmet(reqs: seq<(bool, string)>): Option<string> {
    if reqs == [] then None
    else if !reqs[0].0 then Some(reqs[0].1)
    else FirstUnmet(reqs[1..])
  }

  /** The checks run in a fixed order and the first unmet requirement decides the error. */
  lemma ConfigChecksInOrder(cmd: Command, pathExists: bool)
    ensures ConfigError(cmd, pathExists) == FirstUnmet(Requirements(cmd, pathExists))
  {
    var reqs := Requirements(cmd, pathExists);
    assert FirstUnmet(reqs[3..]) == if reqs[3].0 then None else Some(reqs[3].1);
    assert FirstUnmet(reqs[2..]) == if reqs[2].0 then FirstUnmet(reqs[3..]) else Some(reqs[2].1);
    assert FirstUnmet(reqs[1..]) == if reqs[1].0 then FirstUnmet(reqs[2..]) else Some(reqs[1].1);
  }

  /** The spec of `execute` for a command that passed its checks: one token, then the
      uploads of the collected files with that token. */
  function ExecuteRun<J>(cmd: Command, target: Target, rt: Runtime<J>, server: Request -> Response): Run<map<Path, J>>
    requires ConfigError(cmd, true) == None
  {
    var token := TokenRun(cmd.environment, cmd.key, cmd.tokenUrl, rt, server);
    if token.outcome.Err? then Run(token.sent, Err(token.outcome.error))
    else
      var up := UploadRun(CollectFiles(cmd.path, target), token.outcome.value, cmd.uploadUrl.value, rt, server);
      Run(token.sent + up.sent, up.outcome)
  }

  /** The token is obtained once, before any upload: without an access key one GET to the
      token URL comes first, with one nothing is fetched; a failed token means nothing is
      uploaded, and otherwise the uploads follow the token's requests. */
  lemma {:induction false} ExecuteTokenFirst<J>(cmd: Command, target: Target, rt: Runtime<J>, server: Request -> Response)
    requires ConfigError(cmd, true) == None
    ensures var run := ExecuteRun(cmd, target, rt, server);
      var token := TokenRun(cmd.environment, cmd.key, cmd.tokenUrl, rt, server);
      && |token.sent| == (if Truthy(cmd.key) then 0 else 1)
      && (!Truthy(cmd.key) ==> run.sent[0] == GetRequest(cmd.tokenUrl.value, NoConfig(), rt))
      && (token.outcome.Err? ==> run.sent == token.sent && run.outcome.Err?)
      && (token.outcome.Ok? ==>
            run.sent == token.sent + UploadRun(CollectFiles(cmd.path, target), token.outcome.value, cmd.uploadUrl.value, rt, server).sent)
  {
  }

  /** Whatever was sent before (the token request, in `execute`), each later request uploads
      the next file of the list, in list order, as a POST carrying the one token; no file is
      uploaded twice and none beyond the list. */
  lemma UploadsAfter<J>(before: seq<Request>, files: seq<Path>, token: string, uploadUrl: string,
                        rt: Runtime<J>, server: Request -> Response)
    ensures var all := before + UploadRun(files, token, uploadUrl, rt, server).sent;
      && |before| <= |all| <= |before| + |files|
      && forall k :: |before| <= k < |all| ==>
           all[k] == UploadRequest(files[k - |before|], token, uploadUrl, rt)
           && all[k].options.httpMethod == "POST"
  {
    var up := UploadRun(files, token, uploadUrl, rt, server);
    UploadRunSent(files, token, uploadUrl, rt, server);
    var all := before + up.sent;
    forall k | |before| <= k < |all|
      ensures all[k] == UploadRequest(files[k - |before|], token, uploadUrl, rt)
    {
      assert all[k] == up.sent[k - |before|];
    }
  }

  /** `execute` returns a result exactly when the token is obtained and every collected
      file's upload answers below 400 with a parseable body. */
  lemma ExecuteOkIff<J>(cmd: Command, target: Target, rt: Runtime<J>, server: Request -> Response)
    requires ConfigError(cmd, true) == None
    ensures var token := TokenRun(cmd.environment, cmd.key, cmd.tokenUrl, rt, server);
      var files := CollectFiles(cmd.path, target);
      ExecuteRun(cmd, target, rt, server).outcome.Ok? <==>
        token.outcome.Ok? &&
        forall k :: 0 <= k < |files| ==> UploadOne(files[k], token.outcome.value, cmd.uploadUrl.value, rt, server).Ok?
  {
    var token := TokenRun(cmd.environment, cmd.key, cmd.tokenUrl, rt, server);
    if token.outcome.Ok? {
      UploadRunOkIff(CollectFiles(cmd.path, target), token.outcome.value, cmd.uploadUrl.value, rt, server);
    }
  }

  /** The result of a successful `execute` has exactly the collected files as keys, each
      mapped to the parsed response to its upload with the one token. */
  lemma ExecuteResult<J>(cmd: Command, target: Target, rt: Runtime<J>, server: Request -> Response)
    requires ConfigError(cmd, true) == None
    requires ExecuteRun(cmd, target, rt, server).outcome.Ok?
    ensures var token := TokenRun(cmd.environment, cmd.key, cmd.tokenUrl, rt, server);
      var files := CollectFiles(cmd.path, target);
      var result := ExecuteRun(cmd, target, rt, server).outcome.value;
      && token.outcome.Ok?
      && forall f :: (f in result <==> f in files)
                     && (f in files ==> UploadOne(f, token.outcome.value, cmd.uploadUrl.value, rt, server).Ok?
                                        && result[f] == UploadOne(f, token.outcome.value, cmd.uploadUrl.value, rt, server).value)
  {
    var token := TokenRun(cmd.environment, cmd.key, cmd.tokenUrl, rt, server);
    var files := CollectFiles(cmd.path, target);
    var up := UploadRun(files, token.outcome.value, cmd.uploadUrl.value, rt, server);
    assert ExecuteRun(cmd, target, rt, server).outcome == up.outcome;
    UploadRunResult(files, token.outcome.value, cmd.uploadUrl.value, rt, server);
  }

  /** A proof hint: the request log grows by appending, and sequence concatenation
      regroups freely. */
  lemma AppendAssoc<T>(a: seq<T>, b: seq<T>, c: seq<T>)
    ensures (a + b) + c == a + (b + c)
  {
  }

  /** The upload command, with the fields its constructor assigns. */
  class UploadCommand {
    const path: Path
    const uploadUrl: Option<string>
    const environment: Option<string>
    const accessKey: Option<string>
    const tokenUrl: Option<string>
    const output: Option<string>

    /** The `cmd` the fields were taken from. */
    function Cmd(): Command {
      Command(path, environment, accessKey, uploadUrl, tokenUrl, output)
    }

    /** The fields passed the constructor's checks. */
    predicate Valid() {
      ConfigError(Cmd(), true) == None
    }

    /** The field assignments of the constructor. */
    constructor (cmd: Command)
      ensures Cmd() == cmd
    {
      path := cmd.path;
      uploadUrl := cmd.uploadUrl;
      environment := cmd.environment;
      accessKey := cmd.key;
      tokenUrl := cmd.tokenUrl;
      output := cmd.output;
    }

    /** `new UploadCommand(cmd)`: assigns the fields, then throws at the first failed check.
        `pathExists` is what `fs.existsSync(path)` reports. */
    static method Create(cmd: Command, pathExists: bool) returns (r: Result<UploadCommand>)
      ensures r.Err? <==> ConfigError(cmd, pathExists).Some?
      ensures r.Err? ==> r.error == ConfigError(cmd, pathExists).value
      ensures r.Ok? ==> fresh(r.value) && r.value.Cmd() == cmd && r.value.Valid()
    {
      var c := new UploadCommand(cmd);
      if !pathExists {
        return Err(PathMissing);
      }
      if !Truthy(c.uploadUrl) {
        return Err(UploadUrlMissing);
      }
      if !Truthy(c.tokenUrl) && !Truthy(c.accessKey) {
        return Err(AuthMissing);
      }
      if !Truthy(c.tokenUrl) && Truthy(cmd.key) && !Truthy(c.environment) {
        return Err(EnvironmentMissing);
      }
      return Ok(c);
    }

    /** `_upload`: posts the file with the token and classifies the response. */
    method Upload<J>(filePath: Path, token: string, uploadUrl: string, rt: Runtime<J>, net: Network)
      returns (r: Result<J>)
      modifies net
      ensures net.sent == old(net.sent) + [UploadRequest(filePath, token, uploadUrl, rt)]
      ensures r == UploadOutcome(net.server(UploadRequest(filePath, token, uploadUrl, rt)), rt)
    {
      var resp := Post(uploadUrl, Config(Some(filePath), Some(token), None), rt, net);
      if resp.statusCode >= 400 {
        var error := rt.parseJson(resp.data);
        if error.Err? {
          return Err(error.error);
        }
        var message := rt.messageOf(error.value);
        if message.Err? {
          return Err(message.error);
        }
        return Err(ErrorMessage(message.value));
      }
      return rt.parseJson(resp.data);
    }

    /** Lines 94-106 of `execute`: the path itself when it is a file, the scan when it is
        a directory, then only the images. `target` is what `lstatSync(path)` reports. */
    method ListFiles(target: Target) returns (files: seq<Path>)
      ensures files == CollectFiles(path, target)
    {
      files := [];
      if target.RegularFile? {
        files := files + [path];
        assert files == [path];
      }
      if target.Directory? {
        files := ScanDirectory(path, target.listing, []);
        assert files == Walk(path, target.listing);
      }
      assert files == match target
        case RegularFile => [path]
        case Directory(listing) => Walk(path, listing)
        case OtherKind => [];
      files := FilterImages(files);
    }

    /** Lines 108-117 of `execute`: uploads the files in order with the one token, filling
        the result by path; the first upload that throws ends the loop. */
    method UploadFiles<J>(files: seq<Path>, token: string, uploadUrl: string, rt: Runtime<J>, net: Network)
      returns (r: Result<map<Path, J>>)
      modifies net
      ensures net.sent == old(net.sent) + UploadRun(files, token, uploadUrl, rt, net.server).sent
      ensures r == UploadRun(files, token, uploadUrl, rt, net.server).outcome
    {
      var result: map<Path, J> := map[];
      var i := 0;
      while i < |files|
        invariant 0 <= i <= |files|
        invariant net.sent == old(net.sent) + UploadRun(files[..i], token, uploadUrl, rt, net.server).sent
        invariant UploadRun(files[..i], token, uploadUrl, rt, net.server).outcome == Ok(result)
      {
        ghost var before := UploadRun(files[..i], token, uploadUrl, rt, net.server);
        var filePath := files[i];
        var uploaded := Upload(filePath, token, uploadUrl, rt, net);
        assert files[..i + 1][..i] == files[..i];
        ghost var req := UploadRequest(filePath, token, uploadUrl, rt);
        assert UploadRun(files[..i + 1], token, uploadUrl, rt, net.server).sent == before.sent + [req];
        AppendAssoc(old(net.sent), before.sent, [req]);
        if uploaded.Err? {
          UploadRunStopsAtFailure(files, i + 1, token, uploadUrl, rt, net.server);
          return Err(uploaded.error);
        }
        result := result[filePath := uploaded.value];
        i := i + 1;
      }
      assert files[..i] == files;
      return Ok(result);
    }

    /** `execute`: one token, the file list, then the uploads in order. Writing the result
        to the output file is not modelled. */
    method Execute<J>(rt: Runtime<J>, target: Target, net: Network) returns (r: Result<map<Path, J>>)
      requires Valid()
      modifies net
      ensures net.sent == old(net.sent) + ExecuteRun(Cmd(), target, rt, net.server).sent
      ensures r == ExecuteRun(Cmd(), target, rt, net.server).outcome
    {
      ghost var tokenRun := TokenRun(environment, accessKey, tokenUrl, rt, net.server);
      var token := CreateToken(environment, accessKey, tokenUrl, rt, net);
      if token.Err? {
        return Err(token.error);
      }
      var files := ListFiles(target);
      r := UploadFiles(files, token.value, uploadUrl.value, rt, net);
      AppendAssoc(old(net.sent), tokenRun.sent, UploadRun(files, token.value, uploadUrl.value, rt, net.server).sent);
    }
  }
}
