/**
 * The contact drawer of version 1.7.0: opening and closing with a delayed scroll unlock,
 * and the submit cycle of its form. Timers and the server's reply are pending events
 * that the caller fires.
 */
module ContactForm {
  import opened Text
  import opened Config
  import opened HeaderSpec

  const ThanksText := "Thanks for your submission!"
  const OopsText := "Oops! There was a problem submitting your form"
  const SubmittingLabel := "SUBMITTING..."
  /** The submit button's label in the markup, and the fallback when its span is missing. */
  const SubmitLabel := "SUBMIT"
  /** name, phone, email, team, subject, message. */
  const FieldCount := 6

  /** The status paragraph's class: plain, `--success` or `--error`. */
  datatype StatusKind = PlainStatus | SuccessStatus | ErrorStatus

  /** `setTimeout` callbacks: the 300 ms scroll unlock of `close`, the 2000 ms close after success. */
  datatype Timer = UnlockScroll | AutoClose

  /** An element of a reply's `errors` array: its `message` (`None` when absent) and how it reads when joined. */
  datatype ErrorItem = ErrorItem(message: Option<string>, asText: string)

  /** A non-ok reply's JSON body: with an `errors` array, or anything else. */
  datatype Payload = ErrorList(errors: seq<ErrorItem>) | NoErrorList

  /**
   * How the POST ended: an ok response, a non-ok response with its body, or a thrown error:
   * a rejection of `fetch` or `response.json()`, or a `null` or `undefined` element of
   * `errors`, whose `.message` throws while the status text is built.
   */
  datatype Outcome = Accepted | Rejected(payload: Payload) | Failed

  /** Which of the drawer's optional elements the queries found. */
  datatype Layout = Layout(hasForm: bool, hasStatus: bool, hasButton: bool, hasButtonSpan: bool)

  /** The button is looked up inside the form and the span inside the button. */
  predicate WellFormed(layout: Layout)
  {
    (layout.hasButton ==> layout.hasForm) && (layout.hasButtonSpan ==> layout.hasButton)
  }

  /**
   * Everything the drawer changes: its `is-active` class, the body's `overflow: hidden`,
   * the status text and class, the submit button's `disabled`, display and label, the form
   * fields, pending timers and the original label held by a submission awaiting its reply.
   */
  datatype ContactState = ContactState(
    active: bool,
    overflowLocked: bool,
    statusText: string,
    statusKind: StatusKind,
    submitDisabled: bool,
    submitVisible: bool,
    submitLabel: string,
    fields: seq<string>,
    timers: seq<Timer>,
    reply: Option<string>)

  function Initial(): ContactState
  {
    ContactState(false, false, "", PlainStatus, false, true, SubmitLabel, seq(FieldCount, _ => ""), [], None)
  }

  /**
   * What holds between events: a submission is awaiting its reply exactly while the button
   * is disabled, it remembered the label `SUBMIT`, and the label reads `SUBMITTING...` only then.
   */
  predicate Inv(s: ContactState, layout: Layout)
  {
    && (s.submitDisabled <==> s.reply.Some?)
    && (s.reply.Some? ==> layout.hasButton && s.reply.value == SubmitLabel)
    && s.submitLabel == (if s.submitDisabled && layout.hasButtonSpan then SubmittingLabel else SubmitLabel)
  }

  /** `error.message || error` */
  function ErrorText(e: ErrorItem): string
  {
    if e.message.Some? && e.message.value != "" then e.message.value else e.asText
  }

  /** `errors.map(error => error.message || error).join(', ')` */
  function ErrorSummary(es: seq<ErrorItem>): string
  {
    if es == [] then ""
    else if |es| == 1 then ErrorText(es[0])
    else ErrorText(es[0]) + ", " + ErrorSummary(es[1..])
  }

  /** One more error extends the summary by `", "` and its text, so the texts appear in order. */
  lemma {:induction false} ErrorSummaryAppend(es: seq<ErrorItem>, e: ErrorItem)
    requires es != []
    ensures ErrorSummary(es + [e]) == ErrorSummary(es) + ", " + ErrorText(e)
  {
    if |es| == 1 {
      assert (es + [e])[1..] == [e];
    } else {
      ErrorSummaryAppend(es[1..], e);
      assert (es + [e])[1..] == es[1..] + [e];
    }
  }

  /** Every error's text appears in the summary. */
  lemma {:induction false} ErrorSummaryMentionsAll(es: seq<ErrorItem>, i: nat)
    requires i < |es|
    ensures Contains(ErrorSummary(es), ErrorText(es[i]))
  {
    if |es| == 1 {
      ContainsMiddle([], ErrorText(es[0]), []);
      assert [] + ErrorText(es[0]) + [] == ErrorSummary(es);
    } else if i == 0 {
      ContainsMiddle([], ErrorText(es[0]), ", " + ErrorSummary(es[1..]));
      assert [] + ErrorText(es[0]) + (", " + ErrorSummary(es[1..])) == ErrorSummary(es);
    } else {
      ErrorSummaryMentionsAll(es[1..], i - 1);
      assert es[1..][i - 1] == es[i];
      ContainsAfter(ErrorText(es[0]) + ", ", ErrorSummary(es[1..]), ErrorText(es[i]));
    }
  }

  /** A non-ok reply with an empty `errors` array leaves an empty error status. */
  lemma EmptyErrorListGivesEmptyStatus(s: ContactState, layout: Layout)
    requires s.reply.Some?
    ensures Replied(s, layout, Rejected(ErrorList([]))).statusText == ""
    ensures Replied(s, layout, Rejected(ErrorList([]))).statusKind == ErrorStatus
  {
  }

  /** `open`: clear the status, show the submit button again, set `is-active`, lock scrolling. */
  function Opened(s: ContactState, layout: Layout): ContactState
  {
    s.(active := true,
       overflowLocked := true,
       submitVisible := if layout.hasButton then true else s.submitVisible,
       statusText := if layout.hasStatus then "" else s.statusText,
       statusKind := if layout.hasStatus then PlainStatus else s.statusKind)
  }

  /** `close`: drop `is-active` now and schedule the scroll unlock. */
  function Closed(s: ContactState): ContactState
  {
    s.(active := false, timers := s.timers + [UnlockScroll])
  }

  /**
   * The synchronous part of `handleSubmit`, up to the `fetch`: nothing without status or
   * form; the status is cleared before the button is looked up; then the button is
   * disabled, its label saved and replaced by `SUBMITTING...`.
   */
  function Submitted(s: ContactState, layout: Layout): ContactState
  {
    if !layout.hasStatus || !layout.hasForm then s
    else
      var cleared := s.(statusText := "", statusKind := PlainStatus);
      if !layout.hasButton then cleared
      else cleared.(
        submitDisabled := true,
        submitLabel := if layout.hasButtonSpan then SubmittingLabel else s.submitLabel,
        reply := Some(if layout.hasButtonSpan then s.submitLabel else SubmitLabel))
  }

  /**
   * The rest of `handleSubmit` once the reply settles: success text, form reset, button
   * hidden and a close in 2000 ms; the joined `errors`; or the generic failure text. The
   * `finally` block re-enables the button and restores its saved label in every case.
   */
  function Replied(s: ContactState, layout: Layout, outcome: Outcome): ContactState
    requires s.reply.Some?
  {
    var settled :=
      match outcome
      case Accepted =>
        s.(statusText := ThanksText, statusKind := SuccessStatus,
           fields := seq(|s.fields|, _ => ""), submitVisible := false,
           timers := s.timers + [AutoClose])
      case Rejected(ErrorList(es)) => s.(statusText := ErrorSummary(es), statusKind := ErrorStatus)
      case Rejected(NoErrorList) => s.(statusText := OopsText, statusKind := ErrorStatus)
      case Failed => s.(statusText := OopsText, statusKind := ErrorStatus);
    settled.(
      reply := None,
      submitDisabled := false,
      submitLabel := if layout.hasButtonSpan then s.reply.value else settled.submitLabel)
  }

  /**
   * A timer firing: the unlock restores scrolling only if `is-active` is still absent;
   * the close after success runs `close`.
   */
  function Fired(s: ContactState, i: nat): ContactState
    requires i < |s.timers|
  {
    var rest := s.(timers := WithoutTimer(s.timers, i));
    match s.timers[i]
    case UnlockScroll => rest.(overflowLocked := s.overflowLocked && s.active)
    case AutoClose => Closed(rest)
  }

  /** Every event keeps the invariant; a submission can start only while none is waiting. */
  lemma ContactInvPreserved(s: ContactState, layout: Layout, outcome: Outcome, k: nat)
    requires WellFormed(layout) && Inv(s, layout)
    ensures Inv(Opened(s, layout), layout) && Inv(Closed(s), layout)
    ensures !s.submitDisabled ==> Inv(Submitted(s, layout), layout)
    ensures s.reply.Some? ==> Inv(Replied(s, layout, outcome), layout)
    ensures k < |s.timers| ==> Inv(Fired(s, k), layout)
  {
  }

  /** Closing and reopening before the unlock fires keeps the page locked. */
  lemma ReopenCancelsUnlock(s: ContactState, layout: Layout)
    ensures var t := Opened(Closed(s), layout);
            var u := Fired(t, |t.timers| - 1);
            u.active && u.overflowLocked && u.timers == s.timers
  {
  }

  /** Once closed for good, the unlock gives the page its scrolling back. */
  lemma UnlockAfterClose(s: ContactState)
    ensures var t := Closed(s);
            !Fired(t, |t.timers| - 1).overflowLocked
  {
  }

  /** Reopening after a successful submission shows the button again and clears the thanks. */
  lemma ReopenAfterSuccess(s: ContactState, layout: Layout)
    requires s.reply.Some?
    requires layout.hasButton && layout.hasStatus
    ensures var t := Opened(Replied(s, layout, Accepted), layout);
            t.submitVisible && t.statusText == "" && t.statusKind == PlainStatus
  {
  }

  /**
   * Whatever the reply, a submission returns the button to enabled with its original
   * label, and no submission is left waiting.
   */
  lemma SubmitCycleRestoresButton(s: ContactState, layout: Layout, outcome: Outcome)
    requires WellFormed(layout) && Inv(s, layout) && !s.submitDisabled
    requires layout.hasForm && layout.hasStatus && layout.hasButton
    ensures var t := Replied(Submitted(s, layout), layout, outcome);
            !t.submitDisabled && t.submitLabel == s.submitLabel && t.reply == None && Inv(t, layout)
  {
  }

  /**
   * A successful submission, end to end: the form is cleared, the drawer closes when the
   * 2000 ms timer fires, and the unlock queued by that close gives scrolling back.
   */
  lemma SuccessClosesDrawer(s: ContactState, layout: Layout)
    requires Inv(s, layout) && !s.submitDisabled && s.active && s.timers == []
    requires layout.hasForm && layout.hasStatus && layout.hasButton
    ensures var t := Replied(Submitted(s, layout), layout, Accepted);
            var closed := Fired(t, 0);
            var unlocked := Fired(closed, 0);
            t.statusText == ThanksText && !t.submitVisible
            && (forall k :: 0 <= k < |t.fields| ==> t.fields[k] == "")
            && !closed.active && closed.overflowLocked == s.overflowLocked
            && !unlocked.overflowLocked && unlocked.timers == []
  {
  }

  /** The source clears the status even when it then gives up for want of a submit button. */
  lemma MissingButtonStillClearsStatus(s: ContactState, layout: Layout)
    requires layout.hasForm && layout.hasStatus && !layout.hasButton
    ensures Submitted(s, layout) == s.(statusText := "", statusKind := PlainStatus)
  {
  }

  class ContactDrawer {
    const layout: Layout
    var active: bool
    var overflowLocked: bool
    var statusText: string
    var statusKind: StatusKind
    var submitDisabled: bool
    var submitVisible: bool
    var submitLabel: string
    var fields: seq<string>
    var timers: seq<Timer>
    var reply: Option<string>

    function Snap(): ContactState
      reads this
    {
      ContactState(active, overflowLocked, statusText, statusKind, submitDisabled,
                   submitVisible, submitLabel, fields, timers, reply)
    }

    ghost predicate Valid()
      reads this
    {
      WellFormed(layout) && Inv(Snap(), layout)
    }

    constructor (layout: Layout)
      requires WellFormed(layout)
      ensures Valid() && this.layout == layout && Snap() == Initial()
    {
      this.layout := layout;
      active, overflowLocked := false, false;
      statusText, statusKind := "", PlainStatus;
      submitDisabled, submitVisible, submitLabel := false, true, SubmitLabel;
      fields := seq(FieldCount, _ => "");
      timers, reply := [], None;
    }

    /** `isOpen`: the drawer carries `is-active`. */
    function IsOpen(): (r: bool)
      reads this
      ensures r <==> Snap().active
    {
      active
    }

    method Open()
      requires Valid()
      modifies this
      ensures Valid() && Snap() == Opened(old(Snap()), layout)
    {
      if layout.hasButton {
        submitVisible := true;
      }
      if layout.hasStatus {
        statusText, statusKind := "", PlainStatus;
      }
      active := true;
      overflowLocked := true;
    }

    method Close()
      requires Valid()
      modifies this
      ensures Valid() && Snap() == Closed(old(Snap()))
    {
      active := false;
      timers := timers + [UnlockScroll];
    }

    /** The document's `keyup` listener: Escape closes an open drawer. */
    method KeyUp(key: Key)
      requires Valid()
      modifies this
      ensures Valid()
      ensures Snap() == if key == Escape && old(active) then Closed(old(Snap())) else old(Snap())
    {
      if key == Escape && IsOpen() {
        Close();
      }
    }

    /** The user typing into field `i` of the form. */
    method Input(i: nat, value: string)
      requires Valid() && i < |fields|
      modifies this
      ensures Valid() && Snap() == old(Snap()).(fields := old(fields)[i := value])
    {
      fields := fields[i := value];
    }

    /**
     * The form's `submit` event. A form whose submit button is disabled is not submitted
     * by the browser, hence the precondition.
     */
    method HandleSubmit()
      requires Valid() && !submitDisabled
      modifies this
      ensures Valid() && Snap() == Submitted(old(Snap()), layout)
    {
      if !layout.hasStatus || !layout.hasForm {
        return;
      }
      statusText, statusKind := "", PlainStatus;
      if !layout.hasButton {
        return;
      }
      var original := if layout.hasButtonSpan then submitLabel else SubmitLabel;
      submitDisabled := true;
      if layout.hasButtonSpan {
        submitLabel := SubmittingLabel;
      }
      reply := Some(original);
    }

    /** The reply to the submission in flight arrives. */
    method ReceiveReply(outcome: Outcome)
      requires Valid() && reply.Some?
      modifies this
      ensures Valid() && Snap() == Replied(old(Snap()), layout, outcome)
    {
      var original := reply.value;
      match outcome {
        case Accepted =>
          statusText, statusKind := ThanksText, SuccessStatus;
          fields := seq(|fields|, _ => "");
          submitVisible := false;
          timers := timers + [AutoClose];
        case Rejected(ErrorList(es)) =>
          statusText, statusKind := ErrorSummary(es), ErrorStatus;
        case Rejected(NoErrorList) =>
          statusText, statusKind := OopsText, ErrorStatus;
        case Failed =>
          statusText, statusKind := OopsText, ErrorStatus;
      }
      reply := None;
      submitDisabled := false;
      if layout.hasButtonSpan {
        submitLabel := original;
      }
    }

    /** The `i`-th pending timer fires. */
    method FireTimer(i: nat)
      requires Valid() && i < |timers|
      modifies this
      ensures Valid() && Snap() == Fired(old(Snap()), i)
    {
      var t := timers[i];
      timers := WithoutTimer(timers, i);
      match t {
        case UnlockScroll =>
          if !active {
            overflowLocked := false;
          }
        case AutoClose =>
          Close();
      }
    }
  }
}
