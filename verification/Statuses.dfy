/** The status codes that media operations return, and the two containers the rest of the model shares. */
module Statuses {
  datatype StatusCode =
    | OkStatus
    | InvalidArgument
    | InvalidState
    | NotFound
    | AlreadyExists
    | Unsupported
    | CapabilityMismatch
    | ResourceExhausted
    | WouldBlock
    | Timeout
    | IoError
    | Internal
    | EndOfStream
    | DeviceLost
    | CorruptData

  datatype Option<+T> = None | Some(value: T)

  datatype Result<+T> = Success(value: T) | Failure(code: StatusCode)

  /** An executor turn goes on after any of these; every other code fails the pipeline. */
  predicate Benign(code: StatusCode) {
    code.OkStatus? || code.WouldBlock? || code.NotFound? || code.EndOfStream?
  }

  /** A stop that must be repeated, or a backend that has nothing to hand out for now. */
  predicate TemporarilyEmpty(code: StatusCode) {
    code.WouldBlock? || code.NotFound?
  }

  function RecordFirst(first: StatusCode, candidate: StatusCode): StatusCode {
    if first.OkStatus? then candidate else first
  }

  /** The first answer that is a failure, or success if none is. */
  function FirstFailure(answers: seq<StatusCode>): StatusCode {
    if answers == [] then OkStatus
    else RecordFirst(FirstFailure(answers[..|answers| - 1]), answers[|answers| - 1])
  }

  lemma OneMoreAnswer(answers: seq<StatusCode>, answer: StatusCode)
    ensures FirstFailure(answers + [answer]) == RecordFirst(FirstFailure(answers), answer)
  {
    assert (answers + [answer])[..|answers|] == answers;
  }

  lemma {:induction false} FirstOfBoth(answers: seq<StatusCode>, more: seq<StatusCode>)
    ensures FirstFailure(answers + more) == RecordFirst(FirstFailure(answers), FirstFailure(more))
  {
    if more == [] {
      assert answers + more == answers;
    } else {
      var before, last := more[..|more| - 1], more[|more| - 1];
      FirstOfBoth(answers, before);
      assert answers + more == (answers + before) + [last];
      OneMoreAnswer(answers + before, last);
    }
  }

  lemma {:induction false} NoFailure(answers: seq<StatusCode>)
    requires forall j :: 0 <= j < |answers| ==> answers[j].OkStatus?
    ensures FirstFailure(answers) == OkStatus
  {
    if answers != [] {
      NoFailure(answers[..|answers| - 1]);
    }
  }

  lemma {:induction false} OkIffNoFailure(answers: seq<StatusCode>)
    ensures FirstFailure(answers).OkStatus? <==> forall j :: 0 <= j < |answers| ==> answers[j].OkStatus?
  {
    if answers != [] {
      OkIffNoFailure(answers[..|answers| - 1]);
    }
  }

  lemma {:induction false} FirstFailureIsFirst(answers: seq<StatusCode>, k: nat)
    requires k < |answers| && !answers[k].OkStatus? && forall j :: 0 <= j < k ==> answers[j].OkStatus?
    ensures FirstFailure(answers) == answers[k]
  {
    var before := answers[..|answers| - 1];
    if k < |before| {
      FirstFailureIsFirst(before, k);
    } else {
      NoFailure(before);
    }
  }

  /** The contents of a slot that holds at most one element. */
  function Slot<T>(o: Option<T>): (s: seq<T>)
    ensures |s| <= 1
  {
    match o
    case None => []
    case Some(v) => [v]
  }
}
