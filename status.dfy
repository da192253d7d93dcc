/**
 * Status (src/Wordpress/Deploy/FolderSync/Status.php): an immutable,
 * tagged progress message delivered to the caller's status callback.
 */
module FolderSyncStatus {
  import Php
  import opened Wrappers

  /** The four message-type tags. */
  const MT_NOTICE: string := "notice"
  const MT_WARNING: string := "warning"
  const MT_ERROR: string := "error"
  const MT_RAW_OUTPUT: string := "output"

  /**
   * One status message. The timestamp is whatever `time()` returned when the
   * message was built, supplied by the caller of NewStatus.
   */
  datatype Status = Status(message: string, timestamp: int, messageType: string) {

    predicate IsError() {
      messageType == MT_ERROR
    }

    predicate IsWarning() {
      messageType == MT_WARNING
    }

    /** Notice is also the legacy reading of an empty tag (PHP's `empty`: "" or "0"). */
    predicate IsNotice() {
      Php.EmptyString(messageType) || messageType == MT_NOTICE
    }

    predicate IsRawOutput() {
      messageType == MT_RAW_OUTPUT
    }
  }

  /** `new Status($message, $messageType)`; the tag defaults to notice. */
  function NewStatus(message: string, now: int, messageType: string := MT_NOTICE): (st: Status)
    ensures st.message == message && st.timestamp == now && st.messageType == messageType
  {
    Status(message, now, messageType)
  }

  /** The kinds of message, as an independent reading of the tag. */
  datatype Kind = Notice | Warning | Error | RawOutput

  /** The kind a tag stands for, if any. */
  function KindOf(messageType: string): (k: Option<Kind>)
    ensures k.None? ==> !Php.EmptyString(messageType)
  {
    if messageType == MT_ERROR then Some(Error)
    else if messageType == MT_WARNING then Some(Warning)
    else if messageType == MT_RAW_OUTPUT then Some(RawOutput)
    else if messageType == MT_NOTICE || Php.EmptyString(messageType) then Some(Notice)
    else None
  }

  /** How many of the four predicates hold of a status. */
  function PredicatesHolding(st: Status): nat {
    (if st.IsError() then 1 else 0) + (if st.IsWarning() then 1 else 0)
    + (if st.IsNotice() then 1 else 0) + (if st.IsRawOutput() then 1 else 0)
  }

  /** Each predicate holds exactly when the tag stands for its kind. */
  lemma PredicatesFollowKind(st: Status)
    ensures st.IsError() <==> KindOf(st.messageType) == Some(Error)
    ensures st.IsWarning() <==> KindOf(st.messageType) == Some(Warning)
    ensures st.IsNotice() <==> KindOf(st.messageType) == Some(Notice)
    ensures st.IsRawOutput() <==> KindOf(st.messageType) == Some(RawOutput)
  {
  }

  /** A recognised tag makes exactly one predicate true; any other tag makes none true. */
  lemma PredicatesPartitionTags(st: Status)
    ensures PredicatesHolding(st) == (if KindOf(st.messageType).Some? then 1 else 0)
  {
    PredicatesFollowKind(st);
  }

  /** Each of the four constants is classified by exactly its own predicate. */
  lemma ConstantsClassified(message: string, now: int)
    ensures var st := NewStatus(message, now);
      st.IsNotice() && !st.IsError() && !st.IsWarning() && !st.IsRawOutput()
    ensures var st := NewStatus(message, now, MT_WARNING);
      st.IsWarning() && !st.IsError() && !st.IsNotice() && !st.IsRawOutput()
    ensures var st := NewStatus(message, now, MT_ERROR);
      st.IsError() && !st.IsWarning() && !st.IsNotice() && !st.IsRawOutput()
    ensures var st := NewStatus(message, now, MT_RAW_OUTPUT);
      st.IsRawOutput() && !st.IsError() && !st.IsWarning() && !st.IsNotice()
  {
  }

  /** A non-empty tag other than the four constants satisfies none of the predicates. */
  lemma UnknownTagMatchesNothing(st: Status)
    requires !Php.EmptyString(st.messageType)
    requires st.messageType !in {MT_NOTICE, MT_WARNING, MT_ERROR, MT_RAW_OUTPUT}
    ensures !st.IsError() && !st.IsWarning() && !st.IsNotice() && !st.IsRawOutput()
    ensures PredicatesHolding(st) == 0
  {
  }
}
