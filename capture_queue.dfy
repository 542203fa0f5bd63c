/**
 * The bounded frame buffer both capture hooks keep (hooks/use-eye-tracking.ts
 * and hooks/use-webcam-monitoring.ts): a new frame is pushed at the back and,
 * when that makes the buffer longer than its cap, the oldest frame is shifted
 * off the front.
 */
module Capture {
  /** The `status` field both hooks keep. */
  datatype Status = Idle | Capturing | Uploading | Error

  /** A captured JPEG as `canvas.toBlob` yields it: its MIME type and its bytes. */
  datatype Blob = Blob(mimeType: string, bytes: seq<bv8>)

  /** The camera request `setupWebcam` makes: granted, or the error it threw (its message when it is an `Error`). */
  datatype CameraAccess = Granted | Denied(message: string, isError: bool)

  const WebcamErrorMessage := "Failed to access webcam"

  /** The error a failed camera request records. */
  function CameraError(access: CameraAccess): (m: string)
    requires access.Denied?
    ensures access.isError ==> m == access.message
    ensures !access.isError ==> m == WebcamErrorMessage
  {
    if access.isError then access.message else WebcamErrorMessage
  }

  /** `push` then, when the buffer exceeds `cap`, one `shift`. */
  function Enqueue<T>(q: seq<T>, x: T, cap: nat): (r: seq<T>)
    ensures |r| == |q| + 1 || |r| == |q|
    ensures |q| < cap ==> r == q + [x]
    ensures |q| >= cap ==> r == (q + [x])[1..]
    ensures |q| <= cap ==> |r| <= cap
    ensures r != [] ==> r[|r| - 1] == x
  {
    var pushed := q + [x];
    if |pushed| > cap then pushed[1..] else pushed
  }

  /** The newest `cap` elements of `s`, or all of them when there are fewer. */
  function Newest<T>(s: seq<T>, cap: nat): (r: seq<T>)
    ensures |r| <= cap && |r| <= |s|
  {
    if |s| <= cap then s else s[|s| - cap..]
  }

  /** Frames pushed one after another, in order. */
  function EnqueueAll<T>(q: seq<T>, xs: seq<T>, cap: nat): seq<T>
    decreases |xs|
  {
    if xs == [] then q else EnqueueAll(Enqueue(q, xs[0], cap), xs[1..], cap)
  }

  lemma NewestOfNewest<T>(s: seq<T>, t: seq<T>, cap: nat)
    ensures Newest(Newest(s, cap) + t, cap) == Newest(s + t, cap)
  {
    if |s| > cap {
      var a := Newest(s, cap) + t;
      var b := s + t;
      if |a| > cap {
        assert Newest(a, cap) == Newest(b, cap) by {
          var ra := a[|a| - cap..];
          var rb := b[|b| - cap..];
          assert |ra| == |rb|;
          forall i | 0 <= i < cap ensures ra[i] == rb[i] {
            if |a| - cap + i < cap {
              assert ra[i] == s[|s| - cap + (|a| - cap + i)];
            } else {
              assert ra[i] == t[|a| - cap + i - cap];
            }
          }
        }
      }
    }
  }

  /** One push keeps the newest `cap` elements of what it had plus the new one. */
  lemma EnqueueIsNewest<T>(q: seq<T>, x: T, cap: nat)
    requires |q| <= cap
    ensures Enqueue(q, x, cap) == Newest(q + [x], cap)
  {
  }

  /**
   * However many frames are captured, a buffer that started within its cap
   * holds exactly the newest `cap` of everything pushed, oldest first.
   */
  lemma {:induction false} EnqueueAllKeepsNewest<T>(q: seq<T>, xs: seq<T>, cap: nat)
    requires |q| <= cap
    ensures EnqueueAll(q, xs, cap) == Newest(q + xs, cap)
    decreases |xs|
  {
    if xs != [] {
      var q1 := Enqueue(q, xs[0], cap);
      var pushed := q + [xs[0]];
      EnqueueIsNewest(q, xs[0], cap);
      EnqueueAllKeepsNewest(q1, xs[1..], cap);
      NewestOfNewest(pushed, xs[1..], cap);
      assert pushed + xs[1..] == q + xs;
    }
  }
}
