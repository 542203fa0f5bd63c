/**
 * The storage side of webcam monitoring (lib/webcam-service.ts): where an
 * uploaded image is stored, how a storage failure is reported, and the
 * listing the GET route serves.
 *
 * The SHA-256 hex digest and the blob store's `put` are foreign calls; both
 * are parameters.
 */
module WebcamService {
  import opened Text
  import opened Http

  const StoreFailedMessage := "Failed to store webcam image"

  /** `Number(...)` of a timestamp: a millisecond count, or `NaN`. */
  datatype Timestamp = Millis(ms: int) | NotANumber

  /** `${timestamp}`. */
  function TimestampText(t: Timestamp): (s: string)
    ensures |s| > 0 && '/' !in s
  {
    match t
    case Millis(ms) => IntString(ms)
    case NotANumber => "NaN"
  }

  /** `WebcamImageData`: the ids as strings, the timestamp and the uploaded file. */
  datatype ImageData = ImageData(
    userId: string, examId: string, questionId: string, sessionId: string,
    timestamp: Timestamp, image: FormValue)

  /** The text that is hashed: the five fields joined by '-'. */
  function HashInput(d: ImageData): string {
    d.userId + "-" + d.examId + "-" + d.questionId + "-" + d.sessionId + "-" + TimestampText(d.timestamp)
  }

  /** The first twelve characters of the digest of the hashed fields. */
  function HashSegment(d: ImageData, hexDigest: string -> string): string {
    Prefix(hexDigest(HashInput(d)), 12)
  }

  /** `generateUniqueImageFilename`: `webcam/<user>/<exam>/<question>/<timestamp>-<hash>.jpg`. */
  function GenerateUniqueImageFilename(d: ImageData, hexDigest: string -> string): (path: string)
    ensures StartsWith(path, "webcam/")
    ensures |path| >= 4 && path[|path| - 4..] == ".jpg"
  {
    "webcam/" + d.userId + "/" + d.examId + "/" + d.questionId + "/" + FileName(d, hexDigest)
  }

  /** The last piece of the path: `<timestamp>-<hash>.jpg`. */
  function FileName(d: ImageData, hexDigest: string -> string): string {
    TimestampText(d.timestamp) + "-" + HashSegment(d, hexDigest) + ".jpg"
  }

  /**
   * When the three ids hold no '/' and the digest is hex, the name splits on
   * '/' back into its parts: the fixed "webcam" folder, the three ids, and a
   * last piece made of the timestamp, the hash segment and ".jpg". The hash
   * segment is exactly the digest's first twelve characters.
   */
  lemma FilenameParts(d: ImageData, hexDigest: string -> string)
    requires '/' !in d.userId && '/' !in d.examId && '/' !in d.questionId
    requires '/' !in hexDigest(HashInput(d))
    requires |hexDigest(HashInput(d))| >= 12
    ensures Split(GenerateUniqueImageFilename(d, hexDigest), '/')
      == ["webcam", d.userId, d.examId, d.questionId, FileName(d, hexDigest)]
    ensures FileName(d, hexDigest) == TimestampText(d.timestamp) + "-" + hexDigest(HashInput(d))[..12] + ".jpg"
  {
    FileNameParts(d, hexDigest);
    PathSplits(d.userId, d.examId, d.questionId, FileName(d, hexDigest));
  }

  /** The last piece is the timestamp, the digest's first twelve characters and ".jpg", and holds no '/'. */
  lemma FileNameParts(d: ImageData, hexDigest: string -> string)
    requires '/' !in hexDigest(HashInput(d))
    requires |hexDigest(HashInput(d))| >= 12
    ensures FileName(d, hexDigest) == TimestampText(d.timestamp) + "-" + hexDigest(HashInput(d))[..12] + ".jpg"
    ensures '/' !in FileName(d, hexDigest)
  {
    var digest := hexDigest(HashInput(d));
    var hash := HashSegment(d, hexDigest);
    assert hash == digest[..12];
    assert '/' !in hash by {
      forall i | 0 <= i < |hash| ensures hash[i] != '/' {
        assert hash[i] == digest[i];
      }
    }
  }

  /** A path of four '/'-free pieces under "webcam/" splits back into them. */
  lemma PathSplits(a: string, b: string, c: string, last: string)
    requires '/' !in a && '/' !in b && '/' !in c && '/' !in last
    ensures Split("webcam/" + a + "/" + b + "/" + c + "/" + last, '/') == ["webcam", a, b, c, last]
  {
    var p1 := "webcam/" + a;
    assert p1 == "webcam" + ['/'] + a;
    assert '/' !in "webcam";
    SplitCons("webcam", '/', a);
    assert Split(a, '/') == [a];
    assert Split(p1, '/') == ["webcam", a];
    var p2 := p1 + ['/'] + b;
    SplitSnoc(p1, '/', b);
    assert Split(p2, '/') == ["webcam", a, b];
    var p3 := p2 + ['/'] + c;
    SplitSnoc(p2, '/', c);
    assert Split(p3, '/') == ["webcam", a, b, c];
    SplitSnoc(p3, '/', last);
    assert "webcam/" + a + "/" + b + "/" + c + "/" + last == p3 + ['/'] + last;
  }

  /**
   * The path names the image's owner: two images stored under the same name
   * (ids without '/') belong to the same user, exam and question.
   */
  lemma FilenameDeterminesOwner(d1: ImageData, d2: ImageData, hexDigest: string -> string)
    requires '/' !in d1.userId && '/' !in d1.examId && '/' !in d1.questionId
    requires '/' !in d2.userId && '/' !in d2.examId && '/' !in d2.questionId
    requires '/' !in hexDigest(HashInput(d1)) && |hexDigest(HashInput(d1))| >= 12
    requires '/' !in hexDigest(HashInput(d2)) && |hexDigest(HashInput(d2))| >= 12
    requires GenerateUniqueImageFilename(d1, hexDigest) == GenerateUniqueImageFilename(d2, hexDigest)
    ensures d1.userId == d2.userId && d1.examId == d2.examId && d1.questionId == d2.questionId
  {
    FilenameParts(d1, hexDigest);
    FilenameParts(d2, hexDigest);
    var parts := Split(GenerateUniqueImageFilename(d1, hexDigest), '/');
    assert parts[1] == d1.userId && parts[2] == d1.examId && parts[3] == d1.questionId;
  }

  /** What the blob store's `put` does with a path: the stored URL, or the error it throws. */
  datatype PutResult = Put(url: string) | PutFailed(message: string)

  /** What a call of the service yields: a value, or the message of the error it throws. */
  datatype Outcome = Stored(url: string) | Threw(message: string)

  /**
   * `storeWebcamImage`: the image goes to the generated path, with no random
   * suffix; any storage error is rethrown as "Failed to store webcam image".
   */
  function StoreWebcamImage(d: ImageData, hexDigest: string -> string, put: string -> PutResult): (r: Outcome)
    ensures r.Threw? ==> r.message == StoreFailedMessage
    ensures r.Stored? <==> put(GenerateUniqueImageFilename(d, hexDigest)).Put?
    ensures r.Stored? ==> r.url == put(GenerateUniqueImageFilename(d, hexDigest)).url
  {
    match put(GenerateUniqueImageFilename(d, hexDigest))
    case Put(url) => Stored(url)
    case PutFailed(_) => Threw(StoreFailedMessage)
  }

  /** `WebcamImageLog`: the ids, the capture time in milliseconds and the stored image's URL. */
  datatype ImageLog = ImageLog(
    userId: string, examId: string, questionId: string, sessionId: string,
    timestamp: Timestamp, imageUrl: string)

  /** What `captureImageLog` writes to the console: the capture record, or the error it caught. */
  datatype ConsoleLine =
    | Captured(userId: string, examId: string, questionId: string, sessionId: string,
               isoTimestamp: string, imageUrl: string)
    | LogError(message: string)

  /** The largest distance from the epoch, in milliseconds, that a `Date` can hold. */
  const MaxDateMs: int := 8640000000000000

  /** What `toISOString` throws on a date out of range. */
  const InvalidTimeMessage := "Invalid time value"

  /** A time a `Date` can hold. */
  predicate ValidDate(t: Timestamp) {
    t.Millis? && -MaxDateMs <= t.ms <= MaxDateMs
  }

  /**
   * `captureImageLog`: the record is logged with its time in ISO form; `NaN`
   * or a time no `Date` can hold makes `toISOString` throw, which is caught
   * and logged. Either way the call completes: it never throws.
   */
  function CaptureImageLog(log: ImageLog, toIsoString: int -> string): (line: ConsoleLine)
    ensures line.Captured? <==> ValidDate(log.timestamp)
    ensures line.Captured? ==>
      && line.userId == log.userId && line.examId == log.examId
      && line.questionId == log.questionId && line.sessionId == log.sessionId
      && line.isoTimestamp == toIsoString(log.timestamp.ms) && line.imageUrl == log.imageUrl
    ensures line.LogError? ==> line.message == InvalidTimeMessage
  {
    if ValidDate(log.timestamp) then
      Captured(log.userId, log.examId, log.questionId, log.sessionId, toIsoString(log.timestamp.ms), log.imageUrl)
    else
      LogError(InvalidTimeMessage)
  }

  /** The listing `getWebcamImages` returns: three mock images taken 5, 4 and 3 seconds before `now`. */
  function GetWebcamImages(now: int): (r: seq<Json>)
    ensures |r| == 3
    ensures forall i :: 0 <= i < 3 ==>
      r[i] == JObj(map["url" := JStr("https://example.com/mock-image-" + IntString(i + 1) + ".jpg"),
                       "timestamp" := JNum(now - 5000 + 1000 * i)])
  {
    [MockImage(1, now - 5000), MockImage(2, now - 4000), MockImage(3, now - 3000)]
  }

  function MockImage(n: nat, timestamp: int): Json {
    JObj(map["url" := JStr("https://example.com/mock-image-" + IntString(n) + ".jpg"), "timestamp" := JNum(timestamp)])
  }
}
