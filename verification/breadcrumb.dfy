/**
 * Error objects and the breadcrumb trail that `appendDetails` writes into
 * them as an error travels outward through the wrapper's call chain.
 */
module Breadcrumb {
  import opened JsValues
  import opened SeqFacts

  /**
   * A JavaScript Error as far as the wrapper looks at it: its message and
   * the two breadcrumb strings. The empty string stands for a property that
   * was never set; `||` treats undefined and "" alike.
   */
  datatype ErrorRecord = ErrorRecord(message: string, path: string, causes: string)

  /** One `appendDetails(className, method, cause)` call. */
  datatype Frame = Frame(className: string, methodName: string, cause: string)

  /** The class name every call site of the wrapper passes. */
  const ClassName := "EasyMysql"

  /** `new Error(message)`: no breadcrumbs yet. */
  function NewError(message: string): ErrorRecord {
    ErrorRecord(message, "", "")
  }

  /** `s || "#"`: an unset trail starts from the seed "#". */
  function Seed(s: string): (r: string)
    ensures r != ""
    ensures s != "" ==> r == s
  {
    if s == "" then "#" else s
  }

  function PathSegment(f: Frame): string {
    " -> [" + f.className + "]|(" + f.methodName + ")"
  }

  function CauseSegment(f: Frame): string {
    " -> (" + f.methodName + ")|" + f.cause
  }

  /**
   * `err.appendDetails(className, method, cause)`: extends both trails by
   * one segment and leaves the message alone (AppendExtends states how).
   */
  function AppendDetails(e: ErrorRecord, f: Frame): (r: ErrorRecord)
    ensures r.message == e.message
    ensures |r.path| == |Seed(e.path)| + |PathSegment(f)| > |e.path|
    ensures |r.causes| == |Seed(e.causes)| + |CauseSegment(f)| > |e.causes|
  {
    ErrorRecord(e.message, Seed(e.path) + PathSegment(f), Seed(e.causes) + CauseSegment(f))
  }

  /** The earlier trail (or the seed) stays a prefix, and the new segment follows it. */
  lemma AppendExtends(e: ErrorRecord, f: Frame)
    ensures var r := AppendDetails(e, f);
            && e.path <= r.path && e.causes <= r.causes
            && Seed(e.path) <= r.path && r.path[|Seed(e.path)|..] == PathSegment(f)
            && Seed(e.causes) <= r.causes && r.causes[|Seed(e.causes)|..] == CauseSegment(f)
  {
    var r := AppendDetails(e, f);
    assert r.path == Seed(e.path) + PathSegment(f);
    assert r.causes == Seed(e.causes) + CauseSegment(f);
  }

  /** A live Error object, whose breadcrumb properties `appendDetails` overwrites in place. */
  class ErrorObject {
    var message: string
    var path: string
    var causes: string

    /** The value the object holds now. */
    function Record(): ErrorRecord
      reads this
    {
      ErrorRecord(message, path, causes)
    }

    /** `new Error(message)`. */
    constructor (message: string)
      ensures Record() == NewError(message)
    {
      this.message := message;
      path := "";
      causes := "";
    }

    /**
     * `err.appendDetails(className, method, cause)`: both trails are
     * reassigned to their seeded old value followed by one segment.
     */
    method Append(f: Frame)
      modifies this
      ensures Record() == AppendDetails(old(Record()), f)
      ensures old(path) <= path && old(causes) <= causes
    {
      AppendExtends(Record(), f);
      path := Seed(path) + PathSegment(f);
      causes := Seed(causes) + CauseSegment(f);
    }
  }

  /** Appends the frames in order: `frames[0]` is the deepest call site. */
  function Annotate(e: ErrorRecord, frames: seq<Frame>): (r: ErrorRecord)
    ensures r.message == e.message
    ensures frames != [] ==> |r.path| > |e.path| && |r.causes| > |e.causes|
    decreases |frames|
  {
    if frames == [] then e else Annotate(AppendDetails(e, frames[0]), frames[1..])
  }

  /** Annotating never rewrites what the trails already hold. */
  lemma {:induction false} AnnotateExtends(e: ErrorRecord, frames: seq<Frame>)
    ensures e.path <= Annotate(e, frames).path && e.causes <= Annotate(e, frames).causes
    decreases |frames|
  {
    if frames != [] {
      var e1 := AppendDetails(e, frames[0]);
      AppendExtends(e, frames[0]);
      AnnotateExtends(e1, frames[1..]);
    }
  }

  /** Two annotations in a row, the deeper one first. */
  lemma AnnotatePair(e: ErrorRecord, deeper: Frame, outer: Frame)
    ensures Annotate(e, [deeper, outer]) == AppendDetails(AppendDetails(e, deeper), outer)
  {
    var once := AppendDetails(e, deeper);
    assert [deeper, outer][1..] == [outer];
    assert Annotate(e, [deeper, outer]) == Annotate(once, [outer]);
    assert [outer][1..] == [];
    assert Annotate(once, [outer]) == Annotate(AppendDetails(once, outer), []);
  }

  function PathTrail(frames: seq<Frame>): string
    decreases |frames|
  {
    if frames == [] then "" else PathSegment(frames[0]) + PathTrail(frames[1..])
  }

  function CauseTrail(frames: seq<Frame>): string
    decreases |frames|
  {
    if frames == [] then "" else CauseSegment(frames[0]) + CauseTrail(frames[1..])
  }

  /**
   * After a non-empty run of appendDetails calls, each trail is the seeded
   * earlier trail followed by one segment per call, deepest call first.
   */
  lemma {:induction false} AnnotateTrail(e: ErrorRecord, frames: seq<Frame>)
    requires frames != []
    ensures Annotate(e, frames).path == Seed(e.path) + PathTrail(frames)
    ensures Annotate(e, frames).causes == Seed(e.causes) + CauseTrail(frames)
    decreases |frames|
  {
    var head, rest := frames[0], frames[1..];
    var e1 := AppendDetails(e, head);
    assert Annotate(e, frames) == Annotate(e1, rest);
    assert PathTrail(frames) == PathSegment(head) + PathTrail(rest);
    assert CauseTrail(frames) == CauseSegment(head) + CauseTrail(rest);
    if rest == [] {
      AppendEmpty(PathSegment(head));
      AppendEmpty(CauseSegment(head));
    } else {
      AnnotateTrail(e1, rest);
      Assoc(Seed(e.path), PathSegment(head), PathTrail(rest));
      Assoc(Seed(e.causes), CauseSegment(head), CauseTrail(rest));
    }
  }

  /** A fresh error's trails are "#" followed by the segments of its annotations. */
  lemma FreshErrorTrail(message: string, frames: seq<Frame>)
    requires frames != []
    ensures Annotate(NewError(message), frames).path == "#" + PathTrail(frames)
    ensures Annotate(NewError(message), frames).causes == "#" + CauseTrail(frames)
  {
    AnnotateTrail(NewError(message), frames);
  }

  /** Annotating in two stages is annotating with the concatenated frames. */
  lemma {:induction false} AnnotateInStages(e: ErrorRecord, inner: seq<Frame>, outer: seq<Frame>)
    ensures Annotate(Annotate(e, inner), outer) == Annotate(e, inner + outer)
    decreases |inner|
  {
    if inner != [] {
      AnnotateInStages(AppendDetails(e, inner[0]), inner[1..], outer);
      DropHead(inner, outer);
    } else {
      AppendEmpty(outer);
    }
  }
}
