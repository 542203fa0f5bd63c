/**
 * The media provider (context/media-context.tsx): one camera-and-microphone
 * stream shared by the whole app. Starting reuses the stream already held;
 * stopping stops its tracks and forgets it; and the stream is stopped
 * whenever the page shown is neither the exam nor the disclaimer.
 *
 * The browser's `getUserMedia` is an argument: the stream it grants, or its
 * failure. Streams are told apart by an id.
 */
module MediaContext {
  import opened Wrappers
  import opened Text

  type StreamId = nat

  /** What `getUserMedia` does when asked: grants a stream, or throws. */
  datatype Acquire = Acquired(stream: StreamId) | AcquireFailed

  /** The exam page, the disclaimer page, or either with a query string. */
  predicate KeepsStream(pathname: string): (keeps: bool)
    ensures keeps ==> StartsWith(pathname, "/exam") || StartsWith(pathname, "/disclaimer")
  {
    || pathname == "/exam" || StartsWith(pathname, "/exam?")
    || pathname == "/disclaimer" || StartsWith(pathname, "/disclaimer?")
  }

  /** The bare pages and their query variants keep the stream; a longer path, a sub-page or the home page does not. */
  lemma KeepsStreamExamples()
    ensures KeepsStream("/exam") && KeepsStream("/exam?subject=dsa") && KeepsStream("/disclaimer?x")
    ensures !KeepsStream("/exams") && !KeepsStream("/exam/1") && !KeepsStream("/") && !KeepsStream("/results")
  {
    assert "/exam?subject=dsa"[..6] == "/exam?";
    assert "/disclaimer?x"[..12] == "/disclaimer?";
    assert "/exams"[5] == 's';
    assert "/exam/1"[5] == '/';
  }

  class MediaProvider {
    /** `mediaStreamRef`. */
    var stream: Option<StreamId>
    var isMediaActive: bool
    /** The streams whose tracks were stopped, in order. */
    var stopped: seq<StreamId>
    /** The path the provider last rendered with. */
    var pathname: string

    /** `isMediaActive` says exactly whether a stream is held. */
    ghost predicate Valid()
      reads this
    {
      isMediaActive <==> stream.Some?
    }

    /** Mounting on `pathname`; the first effect has nothing to stop. */
    constructor(pathname: string)
      ensures Valid()
      ensures stream == None && !isMediaActive && stopped == [] && this.pathname == pathname
    {
      stream := None;
      isMediaActive := false;
      stopped := [];
      this.pathname := pathname;
    }

    /**
     * `startMediaStream`: a held stream is returned as it is, without asking
     * the browser again; otherwise the browser's stream is held and returned,
     * or, when it refuses, nothing is held and `null` returned.
     */
    method StartMediaStream(acquire: Acquire) returns (r: Option<StreamId>)
      requires Valid()
      modifies this
      ensures Valid()
      ensures old(stream).Some? ==> r == old(stream) && unchanged(this)
      ensures old(stream).None? && acquire.Acquired? ==> stream == Some(acquire.stream) && r == stream
      ensures old(stream).None? && acquire.AcquireFailed? ==> stream == None && !isMediaActive && r == None
      ensures stopped == old(stopped) && pathname == old(pathname)
    {
      if stream.Some? {
        return stream;
      }
      match acquire {
        case Acquired(s) =>
          stream := Some(s);
          isMediaActive := true;
          r := Some(s);
        case AcquireFailed =>
          isMediaActive := false;
          r := None;
      }
    }

    /** `stopMediaStream`: with no stream held nothing happens; otherwise its tracks are stopped and it is forgotten. */
    method StopMediaStream()
      requires Valid()
      modifies this
      ensures Valid()
      ensures old(stream).None? ==> unchanged(this)
      ensures old(stream).Some? ==> stopped == old(stopped) + [old(stream).value]
      ensures stream == None && !isMediaActive && pathname == old(pathname)
    {
      if stream.Some? {
        stopped := stopped + [stream.value];
        stream := None;
        isMediaActive := false;
      }
    }

    /**
     * A render with a new path: the previous effect's cleanup stops the stream
     * unless the previous path kept it, then the new effect stops it unless the
     * new path keeps it. A stream survives only between two paths that both
     * keep it; the same path again runs no effect.
     */
    method Navigate(newPathname: string)
      requires Valid()
      modifies this
      ensures Valid()
      ensures pathname == newPathname
      ensures newPathname == old(pathname) ==> unchanged(this)
      ensures newPathname != old(pathname) ==>
        (stream.Some? <==> old(stream).Some? && KeepsStream(old(pathname)) && KeepsStream(newPathname))
      ensures stream.Some? ==> stream == old(stream)
      ensures stream.None? && old(stream).Some? ==> stopped == old(stopped) + [old(stream).value]
      ensures stream.Some? || old(stream).None? ==> stopped == old(stopped)
    {
      if newPathname == pathname {
        return;
      }
      if !KeepsStream(pathname) {
        StopMediaStream();
      }
      pathname := newPathname;
      if !KeepsStream(newPathname) {
        StopMediaStream();
      }
    }

    /** Unmounting runs the last effect's cleanup. */
    method Unmount()
      requires Valid()
      modifies this
      ensures Valid()
      ensures stream.Some? <==> old(stream).Some? && KeepsStream(pathname)
      ensures pathname == old(pathname)
      ensures stream.Some? ==> stream == old(stream)
      ensures stream.None? && old(stream).Some? ==> stopped == old(stopped) + [old(stream).value]
      ensures stream.Some? || old(stream).None? ==> stopped == old(stopped)
    {
      if !KeepsStream(pathname) {
        StopMediaStream();
      }
    }
  }
}
