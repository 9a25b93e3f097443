/** ya_disk/accessor.py: `YaDiskAccessor`, the application's view of Yandex Disk.

    The disk is the set of paths that exist on it (`files`), which `upload` and
    `remove` change. What the client answers beyond that is fixed per accessor:
    whether the token passes `check_token`, the error an upload to a free path
    raises (if any), the error `publish` raises (if any), and the result of
    `get_download_link` for a path. File contents are not modelled. */
module YaDisk {
  import opened Wrappers
  import opened Exceptions
  import Strings

  datatype YaDiskSettings = YaDiskSettings(baseDir: string, attemptCount: int)

  const RenameUpload := "Please rename upload file"

  /** `make_file_path`: split the name at every dot, add `(number)` to the part
      before the first dot when `number` is not empty, put the dots back, and
      join it to the base directory with `/`. */
  function MakeFilePath(settings: YaDiskSettings, uploadFileName: string, number: string): (path: string)
    ensures settings.baseDir + "/" <= path
  {
    var parts := Strings.Split(uploadFileName, '.');
    var name := parts[0] + (if number != "" then "(" + number + ")" else "");
    var name := name + (if |parts| > 1 then "." + Strings.Join(".", parts[1..]) else "");
    Strings.Join("/", [settings.baseDir, name])
  }

  lemma JoinPath(dir: string, name: string)
    ensures Strings.Join("/", [dir, name]) == dir + "/" + name
  {
    assert [dir, name][1..] == [name];
  }

  /** With no number the name is kept as it is: splitting at the dots and joining
      them back changes nothing. */
  lemma MakeFilePathPlain(settings: YaDiskSettings, uploadFileName: string)
    ensures MakeFilePath(settings, uploadFileName, "") == settings.baseDir + "/" + uploadFileName
  {
    var parts := Strings.Split(uploadFileName, '.');
    Strings.JoinSplit(uploadFileName, '.');
    var name := Strings.Join(".", parts);
    JoinPath(settings.baseDir, name);
    var plain := parts[0] + (if "" != "" then "(" + "" + ")" else "");
    assert plain == parts[0];
    var whole := plain + (if |parts| > 1 then "." + Strings.Join(".", parts[1..]) else "");
    assert MakeFilePath(settings, uploadFileName, "") == Strings.Join("/", [settings.baseDir, whole]);
    if |parts| > 1 {
      assert name == parts[0] + "." + Strings.Join(".", parts[1..]);
    } else {
      assert name == parts[0];
    }
    assert whole == name;
  }

  /** With a number `k`, "(k)" goes right before the first dot, or at the end when
      the name has no dot: "r.xlsx" becomes "r(2).xlsx". */
  lemma MakeFilePathNumbered(settings: YaDiskSettings, uploadFileName: string, number: string)
    requires number != ""
    ensures var i := Strings.FirstIndex(uploadFileName, '.');
      MakeFilePath(settings, uploadFileName, number)
        == settings.baseDir + "/" + uploadFileName[..i] + "(" + number + ")" + uploadFileName[i..]
  {
    MakeFilePathShape(settings, uploadFileName, number);
    NumberedName(uploadFileName, number);
  }

  /** `make_file_path` with a number, as one concatenation. */
  lemma MakeFilePathShape(settings: YaDiskSettings, uploadFileName: string, number: string)
    requires number != ""
    ensures var parts := Strings.Split(uploadFileName, '.');
      MakeFilePath(settings, uploadFileName, number)
        == settings.baseDir + "/" + (parts[0] + ("(" + number + ")")
                                     + (if |parts| > 1 then "." + Strings.Join(".", parts[1..]) else ""))
  {
    var parts := Strings.Split(uploadFileName, '.');
    var rest := if |parts| > 1 then "." + Strings.Join(".", parts[1..]) else "";
    var whole := parts[0] + (if number != "" then "(" + number + ")" else "") + rest;
    assert MakeFilePath(settings, uploadFileName, number) == Strings.Join("/", [settings.baseDir, whole]);
    JoinPath(settings.baseDir, whole);
  }

  lemma NumberedName(n: string, number: string)
    requires number != ""
    ensures var parts := Strings.Split(n, '.');
      var i := Strings.FirstIndex(n, '.');
      parts[0] + ("(" + number + ")") + (if |parts| > 1 then "." + Strings.Join(".", parts[1..]) else "")
        == n[..i] + "(" + number + ")" + n[i..]
  {
    var parts := Strings.Split(n, '.');
    var i := Strings.FirstIndex(n, '.');
    Strings.SplitHead(n, '.');
    Strings.JoinSplit(n, '.');
    if |parts| > 1 {
      assert n == parts[0] + "." + Strings.Join(".", parts[1..]);
      assert n[i..] == "." + Strings.Join(".", parts[1..]);
    } else {
      assert i == |n|;
    }
  }

  /** The path of upload attempt `number`: unsuffixed first, then `(1)`, `(2)`, ... */
  function Attempt(settings: YaDiskSettings, fileName: string, number: nat): string
  {
    MakeFilePath(settings, fileName, if number != 0 then Strings.NatToString(number) else "")
  }

  /** `YaTokenNotValidException()`, raised by every operation `_check_token` guards. */
  function TokenError(): (e: Exc)
    ensures Str(e) == Ok(TokenFailed) && IsInstance(e, YandexDiskException)
  {
    New(YaTokenNotValidException, [], None)
  }

  /** `YaFileNotFound(f"File not : {what}")`. */
  function NotFound(what: string): (e: Exc)
    ensures Str(e) == Ok("File not : " + what) && IsInstance(e, YaFileNotFound)
  {
    New(YaFileNotFound, ["File not : " + what], None)
  }

  class YaDiskAccessor {
    const settings: YaDiskSettings
    /** What `client.check_token(settings.ya_token)` answers. */
    const tokenValid: bool
    /** What `client.upload` raises for a path that does not exist yet, if anything. */
    const uploadError: string -> Option<Exc>
    /** What `publish` raises for an uploaded path, if anything. */
    const publishError: string -> Option<Exc>
    /** What `get_download_link` gives for a published path. */
    const downloadLink: string -> Result<string, Exc>
    /** The paths that exist on the disk. */
    var files: set<string>

    constructor (settings: YaDiskSettings, tokenValid: bool, uploadError: string -> Option<Exc>,
                 publishError: string -> Option<Exc>, downloadLink: string -> Result<string, Exc>, files: set<string>)
      ensures this.settings == settings && this.tokenValid == tokenValid && this.uploadError == uploadError
      ensures this.publishError == publishError && this.downloadLink == downloadLink && this.files == files
    {
      this.settings := settings;
      this.tokenValid := tokenValid;
      this.uploadError := uploadError;
      this.publishError := publishError;
      this.downloadLink := downloadLink;
      this.files := files;
    }

    /** The upload loop from attempt `number` on, on a disk holding `files`: an
        attempt whose path exists collides and the next is tried; the first free
        path is uploaded, or its error raised; after `attemptCount` attempts,
        `ValueError`. */
    function UploadFrom(files: set<string>, fileName: string, number: nat): (r: Result<string, Exc>)
      ensures r.Ok? ==> r.value !in files && settings.baseDir + "/" <= r.value
      decreases settings.attemptCount - number
    {
      if number >= settings.attemptCount then Err(ValueError(RenameUpload))
      else
        var path := Attempt(settings, fileName, number);
        if path in files then UploadFrom(files, fileName, number + 1)
        else
          match uploadError(path)
          case Some(e) => Err(e)
          case None => Ok(path)
    }

    /** `upload`: the token check, then the attempts from the unsuffixed name on. */
    function UploadResult(files: set<string>, fileName: string): (r: Result<string, Exc>)
      ensures !tokenValid ==> r == Err(TokenError())
      ensures tokenValid ==> r == UploadFrom(files, fileName, 0)
    {
      if !tokenValid then Err(TokenError()) else UploadFrom(files, fileName, 0)
    }

    /** The disk after `upload`: one path more exactly when the upload succeeded. */
    function UploadedFiles(files: set<string>, fileName: string): (r: set<string>)
      ensures UploadResult(files, fileName).Ok? ==> r == files + {UploadResult(files, fileName).value}
      ensures UploadResult(files, fileName).Err? ==> r == files
      ensures files <= r && |r - files| <= 1
    {
      match UploadResult(files, fileName)
      case Ok(path) => files + {path}
      case Err(_) => files
    }

    /** Attempts `from` up to `to` all collide. */
    ghost predicate AllTaken(files: set<string>, fileName: string, from: nat, to: int)
    {
      forall j: nat :: from <= j < to ==> Attempt(settings, fileName, j) in files
    }

    /** What the upload loop does, stated without the loop: when every attempt
        collides it raises `ValueError`, otherwise the first attempt that does not
        collide decides the outcome. */
    lemma {:induction false} UploadOutcome(files: set<string>, fileName: string, number: nat)
      ensures AllTaken(files, fileName, number, settings.attemptCount) ==>
        UploadFrom(files, fileName, number) == Err(ValueError(RenameUpload))
      ensures !AllTaken(files, fileName, number, settings.attemptCount) ==>
        exists k: nat :: number <= k < settings.attemptCount && AllTaken(files, fileName, number, k)
          && Attempt(settings, fileName, k) !in files
          && UploadFrom(files, fileName, number) == (match uploadError(Attempt(settings, fileName, k))
                                                    case Some(e) => Err(e)
                                                    case None => Ok(Attempt(settings, fileName, k)))
      decreases settings.attemptCount - number
    {
      if number < settings.attemptCount {
        var path := Attempt(settings, fileName, number);
        if path in files {
          UploadOutcome(files, fileName, number + 1);
          if !AllTaken(files, fileName, number, settings.attemptCount) {
            assert !AllTaken(files, fileName, number + 1, settings.attemptCount);
            var k: nat :| number + 1 <= k < settings.attemptCount && AllTaken(files, fileName, number + 1, k)
              && Attempt(settings, fileName, k) !in files
              && UploadFrom(files, fileName, number + 1) == (match uploadError(Attempt(settings, fileName, k))
                                                            case Some(e) => Err(e)
                                                            case None => Ok(Attempt(settings, fileName, k)));
            assert AllTaken(files, fileName, number, k);
          }
        } else {
          assert AllTaken(files, fileName, number, number);
        }
      }
    }

    /** The attempt count bounds the upload: with none allowed it raises
        `ValueError` at once, whatever is on the disk. */
    lemma NoAttempts(files: set<string>, fileName: string)
      requires tokenValid && settings.attemptCount <= 0
      ensures UploadResult(files, fileName) == Err(ValueError(RenameUpload))
    {
    }

    /** `upload`: at most `attemptCount` calls to the client, in the order of
        `Attempt`, stopping at the first that does not collide. */
    method Upload(fileName: string) returns (r: Result<string, Exc>, ghost attempts: nat)
      modifies this`files
      ensures r == UploadResult(old(files), fileName)
      ensures files == UploadedFiles(old(files), fileName)
      ensures attempts <= (if settings.attemptCount > 0 then settings.attemptCount else 0)
    {
      attempts := 0;
      if !tokenValid {
        return Err(TokenError()), attempts;
      }
      var number: nat := 0;
      while number < settings.attemptCount
        invariant files == old(files)
        invariant attempts == number
        invariant settings.attemptCount > 0 ==> number <= settings.attemptCount
        invariant settings.attemptCount <= 0 ==> number == 0
        invariant UploadFrom(files, fileName, number) == UploadFrom(files, fileName, 0)
        decreases settings.attemptCount - number
      {
        var uploadFile := MakeFilePath(settings, fileName, if number != 0 then Strings.NatToString(number) else "");
        attempts := attempts + 1;
        if uploadFile !in files {
          match uploadError(uploadFile) {
            case Some(e) =>
              return Err(e), attempts;
            case None =>
              files := files + {uploadFile};
              return Ok(uploadFile), attempts;
          }
        }
        number := number + 1;
      }
      return Err(ValueError(RenameUpload)), attempts;
    }

    /** `download`: the file, named `filename`, read from the unsuffixed path;
        `YaFileNotFound` naming the file when the path does not exist. */
    function DownloadResult(files: set<string>, filename: string): (r: Result<string, Exc>)
      ensures !tokenValid ==> r == Err(TokenError())
      ensures tokenValid ==> (r.Ok? <==> settings.baseDir + "/" + filename in files)
      ensures r.Ok? ==> r.value == filename
      ensures tokenValid && r.Err? ==> r.error == NotFound(filename)
    {
      MakeFilePathPlain(settings, filename);
      if !tokenValid then Err(TokenError())
      else if MakeFilePath(settings, filename, "") !in files then Err(NotFound(filename))
      else Ok(filename)
    }

    /** `remove`: delete the unsuffixed path; `YaFileNotFound` naming the whole
        path when it does not exist. */
    method Remove(fileName: string) returns (r: Result<(), Exc>)
      modifies this`files
      ensures var path := settings.baseDir + "/" + fileName;
        && (!tokenValid ==> r == Err(TokenError()) && files == old(files))
        && (tokenValid && path !in old(files) ==> r == Err(NotFound(path)) && files == old(files))
        && (tokenValid && path in old(files) ==> r == Ok(()) && files == old(files) - {path})
    {
      if !tokenValid {
        return Err(TokenError());
      }
      var pathToFile := MakeFilePath(settings, fileName, "");
      MakeFilePathPlain(settings, fileName);
      if pathToFile !in files {
        return Err(NotFound(pathToFile));
      }
      files := files - {pathToFile};
      return Ok(());
    }

    /** A file uploaded under its own name can be downloaded by that name. */
    lemma UploadThenDownload(files: set<string>, fileName: string)
      requires UploadResult(files, fileName) == Ok(Attempt(settings, fileName, 0))
      ensures DownloadResult(UploadedFiles(files, fileName), fileName) == Ok(fileName)
    {
      MakeFilePathPlain(settings, fileName);
    }

    /** `upload_and_get_public_download_link`: upload, publish the uploaded path,
        then ask for its download link; the first error is raised. */
    function LinkResult(files: set<string>, fileName: string): (r: Result<string, Exc>)
      ensures UploadResult(files, fileName).Err? ==> r == Err(UploadResult(files, fileName).error)
      ensures r.Ok? ==> (UploadResult(files, fileName).Ok?
        && publishError(UploadResult(files, fileName).value).None?
        && r == downloadLink(UploadResult(files, fileName).value))
      ensures UploadResult(files, fileName).Ok? && publishError(UploadResult(files, fileName).value).Some? ==>
        r == Err(publishError(UploadResult(files, fileName).value).value)
      ensures UploadResult(files, fileName).Ok? && publishError(UploadResult(files, fileName).value).None? ==>
        r == downloadLink(UploadResult(files, fileName).value)
      ensures !tokenValid ==> r == Err(TokenError())
    {
      match UploadResult(files, fileName)
      case Err(e) => Err(e)
      case Ok(path) =>
        match publishError(path)
        case Some(e) => Err(e)
        case None => downloadLink(path)
    }

    method UploadAndGetPublicDownloadLink(fileName: string) returns (r: Result<string, Exc>)
      modifies this`files
      ensures r == LinkResult(old(files), fileName)
      ensures files == UploadedFiles(old(files), fileName)
    {
      var yaObject;
      ghost var attempts;
      yaObject, attempts := Upload(fileName);
      if yaObject.Err? {
        return Err(yaObject.error);
      }
      if publishError(yaObject.value).Some? {
        return Err(publishError(yaObject.value).value);
      }
      return downloadLink(yaObject.value);
    }
  }
}
