/**
  The multipart upload rules of server/server.js: the two `multer` instances
  (resumes and recruiter logos), their MIME filters and size cap, the name a
  received file is stored under, and the object-storage URL a stored file gets.
 */
module Uploads {
  import opened Wrappers
  import Decimal

  /** The part of a received file the server looks at. */
  datatype UploadedFile = UploadedFile(originalName: string, mimeType: string, size: nat)

  /** `limits.fileSize` of both uploaders: 5 MiB. */
  const MaxFileSize: nat := 5 * 1024 * 1024

  const PdfOnly := "Only PDF files are allowed!"
  const ImagesOnly := "Only image files are allowed!"
  /** The message multer gives its LIMIT_FILE_SIZE error. */
  const TooLarge := "File too large"

  datatype Admission = Admitted | Refused(message: string)

  predicate StartsWith(s: string, prefix: string) {
    |prefix| <= |s| && s[..|prefix|] == prefix
  }

  /** The resume uploader's `fileFilter`, then the size limit enforced while streaming. */
  function AdmitResume(f: UploadedFile): (r: Admission)
    ensures r.Admitted? <==> f.mimeType == "application/pdf" && f.size <= MaxFileSize
    ensures f.mimeType != "application/pdf" ==> r == Refused(PdfOnly)
    ensures f.mimeType == "application/pdf" && f.size > MaxFileSize ==> r == Refused(TooLarge)
  {
    if f.mimeType != "application/pdf" then Refused(PdfOnly)
    else if f.size > MaxFileSize then Refused(TooLarge)
    else Admitted
  }

  /** The logo uploader's `fileFilter` (any `image/` type), then the size limit. */
  function AdmitImage(f: UploadedFile): (r: Admission)
    ensures r.Admitted? <==> StartsWith(f.mimeType, "image/") && f.size <= MaxFileSize
    ensures !StartsWith(f.mimeType, "image/") ==> r == Refused(ImagesOnly)
    ensures StartsWith(f.mimeType, "image/") && f.size > MaxFileSize ==> r == Refused(TooLarge)
  {
    if !StartsWith(f.mimeType, "image/") then Refused(ImagesOnly)
    else if f.size > MaxFileSize then Refused(TooLarge)
    else Admitted
  }

  /** Both uploaders refuse every file over the cap, whatever its type. */
  lemma OversizedFilesRefused(f: UploadedFile)
    requires f.size > MaxFileSize
    ensures AdmitResume(f).Refused? && AdmitImage(f).Refused?
  {
  }

  /** A PDF is never a logo, and an image is never a resume. */
  lemma FiltersDisjoint(f: UploadedFile)
    ensures !(AdmitResume(f).Admitted? && AdmitImage(f).Admitted?)
  {
    if AdmitResume(f).Admitted? {
      assert f.mimeType[..6] == "applic";
    }
  }

  // ---- Names and URLs ----

  /** The index of the first '-' in `s`, or `|s|` when there is none. */
  function FirstDash(s: string): (i: nat)
    ensures i <= |s|
    ensures forall k :: 0 <= k < i ==> s[k] != '-'
    ensures i < |s| ==> s[i] == '-'
  {
    if |s| == 0 then 0
    else if s[0] == '-' then 0
    else 1 + FirstDash(s[1..])
  }

  /** `{millis}-{name}`: the temporary file name of the disk storage engine,
      and the tail of every object key the controllers build. */
  function Stamped(millis: nat, name: string): string {
    Decimal.Render(millis) + "-" + name
  }

  /** Splits a stamped name back into its timestamp and original name. */
  function Unstamp(s: string): Option<(nat, string)> {
    var i := FirstDash(s);
    if 0 < i < |s| && Decimal.AllDigits(s[..i]) then Some((Decimal.Parse(s[..i]), s[i + 1..]))
    else None
  }

  /** The timestamp and the original name can both be read back from a stamped
      name, even when the original name itself contains dashes. */
  lemma UnstampStamped(millis: nat, name: string)
    ensures Unstamp(Stamped(millis, name)) == Some((millis, name))
  {
    var d := Decimal.Render(millis);
    var s := Stamped(millis, name);
    var i := FirstDash(s);
    assert s[|d|] == '-';
    assert i == |d|;
    assert s[..i] == d;
    assert s[i + 1..] == name;
    Decimal.ParseRender(millis);
  }

  /** The disk storage engine's `filename` callback. */
  function TempFileName(now: nat, f: UploadedFile): (name: string)
    ensures |Decimal.Render(now)| < |name| && name[..|Decimal.Render(now)|] == Decimal.Render(now)
    ensures Unstamp(name) == Some((now, f.originalName))
  {
    UnstampStamped(now, f.originalName);
    Stamped(now, f.originalName)
  }

  /** Bucket and region of the object store, read from the environment. */
  datatype StorageConfig = StorageConfig(bucket: string, region: string)

  function UrlPrefix(cfg: StorageConfig): string {
    "https://" + cfg.bucket + ".s3." + cfg.region + ".amazonaws.com/"
  }

  /** The virtual-hosted URL of the object stored under `key`. */
  function ObjectUrl(cfg: StorageConfig, key: string): (url: string)
    ensures StartsWith(url, UrlPrefix(cfg))
    ensures url[|UrlPrefix(cfg)|..] == key
  {
    UrlPrefix(cfg) + key
  }

  /** Within one bucket, distinct keys give distinct URLs. */
  lemma ObjectUrlInjective(cfg: StorageConfig, k1: string, k2: string)
    requires ObjectUrl(cfg, k1) == ObjectUrl(cfg, k2)
    ensures k1 == k2
  {
  }

  /** `resumes/{userId}-{millis}-{originalname}`. */
  function ResumeKey(userId: string, millis: nat, originalName: string): (key: string)
    ensures StartsWith(key, "resumes/" + userId + "-")
    ensures key[|"resumes/" + userId + "-"|..] == Stamped(millis, originalName)
    ensures StartsWith(key[|"resumes/" + userId + "-"|..], Decimal.Render(millis))
    ensures Unstamp(key[|"resumes/" + userId + "-"|..]) == Some((millis, originalName))
  {
    UnstampStamped(millis, originalName);
    var head := "resumes/" + userId + "-";
    var key := head + Stamped(millis, originalName);
    assert key[|head|..] == Stamped(millis, originalName);
    key
  }

  const LogoPrefix := "recruiter-logos/"

  /** `recruiter-logos/{millis}-{originalname}`. */
  function LogoKey(millis: nat, originalName: string): (key: string)
    ensures StartsWith(key, LogoPrefix)
    ensures StartsWith(key[|LogoPrefix|..], Decimal.Render(millis))
    ensures Unstamp(key[|LogoPrefix|..]) == Some((millis, originalName))
  {
    UnstampStamped(millis, originalName);
    var key := LogoPrefix + Stamped(millis, originalName);
    assert key[|LogoPrefix|..] == Stamped(millis, originalName);
    key
  }
}
