/** `ImageUploadService`: one upload of a picture to the object store, the retry loop around
    it with exponential backoff, and the check that a picture URI can be read. Every fetch,
    file-system probe and store call is an input giving what that call returns or throws. */
module ImageUpload {
  import opened Wrappers
  import opened Text

  // ---------------------------------------------------------------- uploadImage

  /** What `fetch(imageUri)` resolves to, as far as the upload looks at it. */
  datatype Response = Response(ok: bool, status: int, statusText: string)

  /** The outcomes of the four awaited calls of one upload: the fetch, `response.blob()` (the
      blob's size), `uploadBytes` and `getDownloadURL`. */
  datatype UploadIo = UploadIo(
    fetch: Result<Response, Thrown>,
    blob: Result<nat, Thrown>,
    upload: Result<(), Thrown>,
    downloadUrl: Result<string, Thrown>)

  /** The result of one upload, and the object written to the store, if `uploadBytes` got to
      write one. */
  datatype UploadOutcome = UploadOutcome(result: Result<string, Thrown>, written: Option<string>)

  /** The object path of a picture. */
  function UploadPath(userId: string, assessmentId: string): string
  {
    "assessments/" + userId + "/" + assessmentId + ".jpg"
  }

  /** The body of the `try` in `uploadImage`: the first step that throws decides the error. */
  function UploadSteps(io: UploadIo): Result<string, Thrown>
  {
    match io.fetch
    case Failure(e) => Failure(e)
    case Success(response) =>
      if !response.ok then
        Failure(Error("Failed to fetch image: " + IntToString(response.status) + " " + response.statusText))
      else match io.blob
        case Failure(e) => Failure(e)
        case Success(size) =>
          if size == 0 then Failure(Error("Image file is empty"))
          else match io.upload
            case Failure(e) => Failure(e)
            case Success(_) => io.downloadUrl
  }

  /** Whether the upload reached `uploadBytes` and that call succeeded. */
  predicate Uploaded(io: UploadIo)
  {
    && io.fetch.Success? && io.fetch.value.ok
    && io.blob.Success? && io.blob.value > 0
    && io.upload.Success?
  }

  /** `uploadImage(imageUri, userId, assessmentId)`: every failure is rethrown as
      `Failed to upload image: <message>`. */
  function UploadImage(userId: string, assessmentId: string, io: UploadIo): (o: UploadOutcome)
    ensures o.result.Success? <==> Uploaded(io) && io.downloadUrl.Success?
    ensures o.result.Success? ==> o.result.value == io.downloadUrl.value
    ensures o.result.Failure? ==> exists m :: o.result.error == Error("Failed to upload image: " + m)
    ensures o.written == (if Uploaded(io) then Some(UploadPath(userId, assessmentId)) else None)
  {
    var written := if Uploaded(io) then Some(UploadPath(userId, assessmentId)) else None;
    match UploadSteps(io)
    case Success(url) => UploadOutcome(Success(url), written)
    case Failure(e) => UploadOutcome(Failure(Error("Failed to upload image: " + MessageOr(e, "Unknown error"))), written)
  }

  /** A response that is not ok is rejected with its status, and nothing is written. */
  lemma NotOkRejected(userId: string, assessmentId: string, io: UploadIo)
    requires io.fetch.Success? && !io.fetch.value.ok
    ensures var r := io.fetch.value;
      var o := UploadImage(userId, assessmentId, io);
      && o.result == Failure(Error("Failed to upload image: " + ("Failed to fetch image: " + IntToString(r.status) + " " + r.statusText)))
      && o.written == None
  {
  }

  /** An empty blob is rejected, and nothing is written. */
  lemma EmptyBlobRejected(userId: string, assessmentId: string, io: UploadIo)
    requires io.fetch.Success? && io.fetch.value.ok && io.blob == Success(0)
    ensures var o := UploadImage(userId, assessmentId, io);
      && o.result == Failure(Error("Failed to upload image: " + "Image file is empty"))
      && o.written == None
  {
  }

  /** Object paths of different pictures differ as long as user ids hold no `/`. */
  lemma UploadPathInjective(u1: string, a1: string, u2: string, a2: string)
    requires '/' !in u1 && '/' !in u2
    requires UploadPath(u1, a1) == UploadPath(u2, a2)
    ensures u1 == u2 && a1 == a2
  {
    var p := "assessments/";
    var r1 := u1 + "/" + (a1 + ".jpg");
    var r2 := u2 + "/" + (a2 + ".jpg");
    assert UploadPath(u1, a1) == p + r1;
    assert UploadPath(u2, a2) == p + r2;
    assert r1 == (p + r1)[|p|..];
    assert r2 == (p + r2)[|p|..];
    SlashSplit(u1, a1 + ".jpg", u2, a2 + ".jpg");
    assert a1 + ".jpg" == a2 + ".jpg";
    assert a1 == (a1 + ".jpg")[..|a1|];
    assert a2 == (a2 + ".jpg")[..|a2|];
  }

  /** The first `/` splits `u + "/" + t` back into `u` and `t`. */
  lemma SlashSplit(u1: string, t1: string, u2: string, t2: string)
    requires '/' !in u1 && '/' !in u2
    requires u1 + "/" + t1 == u2 + "/" + t2
    ensures u1 == u2 && t1 == t2
  {
    var s := u1 + "/" + t1;
    assert s[|u1|] == '/';
    assert (u2 + "/" + t2)[|u2|] == '/';
    assert u1 == s[..|u1|];
    assert u2 == s[..|u2|];
    assert t1 == s[|u1| + 1..];
    assert t2 == (u2 + "/" + t2)[|u2| + 1..];
  }

  /** With a `/` in the user id the path no longer tells pictures apart. */
  lemma SlashInUserIdCollides()
    ensures UploadPath("a/b", "c") == UploadPath("a", "b/c")
  {
  }

  // ---------------------------------------------------------------- uploadImageWithRetry

  function Pow2(k: nat): nat
  {
    if k == 0 then 1 else 2 * Pow2(k - 1)
  }

  /** The waits after the first `n` failed attempts: `2^k * 1000` ms after attempt `k`. */
  function Backoff(n: nat): (w: seq<nat>)
    ensures |w| == n
    ensures forall k :: 0 <= k < n ==> w[k] == Pow2(k + 1) * 1000
  {
    if n == 0 then [] else Backoff(n - 1) + [Pow2(n) * 1000]
  }

  /** With the default of three attempts, the waits are 2000 ms and then 4000 ms. */
  lemma DefaultBackoff()
    ensures Backoff(3 - 1) == [2000, 4000]
  {
    assert Pow2(1) == 2;
    assert Pow2(2) == 4;
  }

  /** `uploadImageWithRetry(imageUri, userId, assessmentId, maxRetries)`; `io(k)` is what the
      calls of attempt `k` return or throw. Besides the result it gives the number of attempts
      made, the waits in between (in milliseconds) and the objects written. */
  method UploadImageWithRetry(userId: string, assessmentId: string, io: nat -> UploadIo, maxRetries: int)
    returns (r: Result<string, Thrown>, attempts: nat, waits: seq<nat>, written: seq<string>)
    ensures attempts <= (if maxRetries > 0 then maxRetries else 0)
    ensures forall k :: 1 <= k < attempts ==> UploadImage(userId, assessmentId, io(k)).result.Failure?
    ensures r.Success? ==> attempts >= 1 && r == UploadImage(userId, assessmentId, io(attempts)).result
    ensures r.Success? ==> waits == Backoff(attempts - 1)
    ensures r.Failure? ==> attempts == (if maxRetries > 0 then maxRetries else 0)
    ensures r.Failure? ==> waits == Backoff(if attempts > 0 then attempts - 1 else 0)
    ensures r.Failure? && attempts >= 1 ==> r == UploadImage(userId, assessmentId, io(attempts)).result
    ensures r.Failure? && attempts == 0 ==> r == Failure(NonError)
    ensures written == WrittenBy(userId, assessmentId, io, attempts)
    ensures r.Success? ==> UploadPath(userId, assessmentId) in written
    ensures r == RetryOutcome(userId, assessmentId, io, maxRetries)
  {
    r := Failure(NonError);
    attempts := 0;
    waits := [];
    written := [];
    var attempt := 1;
    while attempt <= maxRetries
      invariant attempt >= 1 && attempts == attempt - 1
      invariant attempts <= (if maxRetries > 0 then maxRetries else 0)
      invariant forall k :: 1 <= k <= attempts ==> UploadImage(userId, assessmentId, io(k)).result.Failure?
      invariant attempts >= 1 ==> r == UploadImage(userId, assessmentId, io(attempts)).result
      invariant attempts == 0 ==> r == Failure(NonError)
      invariant waits == Backoff(if attempts >= 1 && attempts >= maxRetries then attempts - 1 else attempts)
      invariant written == WrittenBy(userId, assessmentId, io, attempts)
      invariant attempt <= maxRetries ==> RetryOutcome(userId, assessmentId, io, maxRetries) == RetryFrom(userId, assessmentId, io, attempt, maxRetries)
      invariant attempt > maxRetries ==> r == RetryOutcome(userId, assessmentId, io, maxRetries)
      decreases maxRetries - attempt
    {
      var outcome := UploadImage(userId, assessmentId, io(attempt));
      attempts := attempt;
      written := written + (if outcome.written.Some? then [outcome.written.value] else []);
      if outcome.result.Success? {
        r := outcome.result;
        return;
      }
      r := outcome.result;
      if attempt < maxRetries {
        waits := waits + [Pow2(attempt) * 1000];
      }
      attempt := attempt + 1;
    }
  }

  /** What the attempts from attempt `k` on end with: the first success, or the error of the
      last attempt. */
  function RetryFrom(userId: string, assessmentId: string, io: nat -> UploadIo, k: nat, maxRetries: int): Result<string, Thrown>
    requires 1 <= k <= maxRetries
    decreases maxRetries - k
  {
    var o := UploadImage(userId, assessmentId, io(k)).result;
    if o.Success? || k == maxRetries then o else RetryFrom(userId, assessmentId, io, k + 1, maxRetries)
  }

  /** The result of `uploadImageWithRetry`: with no attempt allowed, `lastError` is never
      assigned and `undefined` is thrown. */
  function RetryOutcome(userId: string, assessmentId: string, io: nat -> UploadIo, maxRetries: int): Result<string, Thrown>
  {
    if maxRetries <= 0 then Failure(NonError) else RetryFrom(userId, assessmentId, io, 1, maxRetries)
  }

  /** The objects the first `n` attempts write. */
  function WrittenBy(userId: string, assessmentId: string, io: nat -> UploadIo, n: nat): (w: seq<string>)
    ensures forall x :: x in w ==> x == UploadPath(userId, assessmentId)
  {
    if n == 0 then []
    else
      var o := UploadImage(userId, assessmentId, io(n));
      WrittenBy(userId, assessmentId, io, n - 1) + (if o.written.Some? then [o.written.value] else [])
  }

  // ---------------------------------------------------------------- validateImageUri

  /** What the probes of one validation return or throw: `FileSystem.getInfoAsync` (whether
      the file exists), the `HEAD` fetch and the `GET` fetch (whether the response is ok). */
  datatype Probes = Probes(fileInfo: Result<bool, Thrown>, head: Result<bool, Thrown>, get: Result<bool, Thrown>)

  /** `validateByFetch`: `HEAD`, then `GET` if that throws, and `false` if both throw. */
  function ValidateByFetch(head: Result<bool, Thrown>, get: Result<bool, Thrown>): (ok: bool)
    ensures ok <==> (head.Success? && head.value) || (head.Failure? && get.Success? && get.value)
  {
    match head
    case Success(ok) => ok
    case Failure(_) =>
      match get
      case Success(ok) => ok
      case Failure(_) => false
  }

  /** `validateImageUri(imageUri)`, dispatching on the scheme. */
  function ValidateImageUri(uri: string, p: Probes): bool
  {
    if uri == [] || Trim(uri) == [] then false
    else if StartsWith(uri, "file://") then
      match p.fileInfo
      case Success(exists_) => exists_
      case Failure(_) => ValidateByFetch(p.head, p.get)
    else if StartsWith(uri, "blob:") then ValidateByFetch(p.head, p.get)
    else if StartsWith(uri, "data:") then Contains(uri, "data:image/") && Contains(uri, "base64,")
    else if StartsWith(uri, "http://") || StartsWith(uri, "https://") then ValidateByFetch(p.head, p.get)
    else ValidateByFetch(p.head, p.get)
  }

  /** An empty or blank URI is never valid, whatever the probes would say. */
  lemma BlankUriInvalid(uri: string, p: Probes)
    requires forall i :: 0 <= i < |uri| ==> IsJsWhitespace(uri[i])
    ensures !ValidateImageUri(uri, p)
  {
    TrimEmpty(uri);
  }

  /** A text that starts with something other than whitespace does not trim to nothing. */
  lemma StartsSolid(s: string)
    requires s != [] && !IsJsWhitespace(s[0])
    ensures Trim(s) != []
  {
    TrimEmpty(s);
  }

  /** A `data:` URI is decided by its text alone: no probe is looked at. */
  lemma DataUriNeedsNoIo(uri: string, p: Probes)
    requires StartsWith(uri, "data:")
    ensures ValidateImageUri(uri, p) == (Contains(uri, "data:image/") && Contains(uri, "base64,"))
  {
    assert uri[0] == 'd';
    StartsSolid(uri);
    assert !StartsWith(uri, "file://") by {
      assert |uri| >= 7 ==> uri[..7][0] == 'd';
    }
    assert !StartsWith(uri, "blob:") by {
      assert uri[..5][0] == 'd';
    }
  }

  /** A `file://` URI asks the file system, and only if that throws falls back to fetching. */
  lemma FileUriUsesFileSystem(uri: string, p: Probes)
    requires StartsWith(uri, "file://")
    ensures ValidateImageUri(uri, p)
         == (if p.fileInfo.Success? then p.fileInfo.value else ValidateByFetch(p.head, p.get))
  {
    assert uri[0] == 'f';
    StartsSolid(uri);
  }

  /** Every other non-blank URI (`blob:`, `http(s)://` or any other) is decided by fetching. */
  lemma OtherUriFetches(uri: string, p: Probes)
    requires Trim(uri) != []
    requires !StartsWith(uri, "file://") && !StartsWith(uri, "data:")
    ensures ValidateImageUri(uri, p) == ValidateByFetch(p.head, p.get)
  {
  }

  /** When every probe throws, only a well-formed `data:` URI can pass. */
  lemma ThrowingProbesInvalid(uri: string, p: Probes)
    requires p.fileInfo.Failure? && p.head.Failure? && p.get.Failure?
    requires !StartsWith(uri, "data:")
    ensures !ValidateImageUri(uri, p)
  {
  }
}
