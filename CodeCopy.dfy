/**
 * `useCodeCopy` (src/composables/useCodeCopy.ts): a pass that appends a copy button to every
 * highlighted code block, and the button's click feedback.  The blocks are the array `dom`;
 * the clipboard API and `execCommand` are oracle outcomes; the two-second timer is an event
 * the caller fires, and all timers have the same delay, so they fire in the order they were
 * set.
 */
module CodeCopy {
  import opened Wrappers

  /** The text of a fresh button and the feedback text. */
  const CopyLabel: string := "复制"
  const CopiedLabel: string := "已复制!"

  // ---------------------------------------------------------------------------------------
  // the button's feedback, as values

  /** A button's text, whether it has the class `copied`, and the texts its pending timers will
      restore, oldest first. */
  datatype Feedback = Feedback(text: string, copied: bool, pending: seq<string>)

  /** A button as `createCopyButton` leaves it. */
  const Idle: Feedback := Feedback(CopyLabel, false, [])

  /** `showCopySuccess` as written: the timer restores the text the button had at the click. */
  function ShowSuccessAsWritten(f: Feedback): (r: Feedback)
  {
    Feedback(CopiedLabel, true, f.pending + [f.text])
  }

  /** `showCopySuccess` as evidently intended: the timer restores the button's own text. */
  function ShowSuccess(f: Feedback): (r: Feedback)
  {
    Feedback(CopiedLabel, true, f.pending + [CopyLabel])
  }

  /** The oldest timer fires: the text it holds comes back and `copied` is removed. */
  function TimerFired(f: Feedback): (r: Feedback)
    requires f.pending != []
  {
    Feedback(f.pending[0], false, f.pending[1..])
  }

  /** One click followed by its timer restores the button, in both versions. */
  lemma OneClickRestores()
    ensures TimerFired(ShowSuccessAsWritten(Idle)) == Idle
    ensures TimerFired(ShowSuccess(Idle)) == Idle
  {
  }

  /** Two clicks within two seconds, as written: once both timers have fired the button keeps
      the feedback text for good, since the second click saved it as the text to restore. */
  lemma DoubleClickSticksAsWritten()
    ensures var f := TimerFired(TimerFired(ShowSuccessAsWritten(ShowSuccessAsWritten(Idle))));
            f.pending == [] && f.text == CopiedLabel && !f.copied
  {
    var f1 := ShowSuccessAsWritten(Idle);
    var f2 := ShowSuccessAsWritten(f1);
    assert f2.pending == [CopyLabel, CopiedLabel];
  }

  /** A click or a timer. */
  datatype Event = Click | Timer

  /** The feedback after a run of events, with the intended `showCopySuccess`; a timer with
      nothing pending cannot happen and changes nothing. */
  function Run(f: Feedback, events: seq<Event>): Feedback
    decreases |events|
  {
    if events == [] then f
    else
      var g := if events[0] == Click then ShowSuccess(f) else if f.pending != [] then TimerFired(f) else f;
      Run(g, events[1..])
  }

  /** Every pending timer restores the button's own text, and with none pending the button is
      idle. */
  predicate Settles(f: Feedback) {
    && (forall k :: 0 <= k < |f.pending| ==> f.pending[k] == CopyLabel)
    && (f.pending == [] ==> f == Idle)
  }

  lemma {:induction false} RunSettles(f: Feedback, events: seq<Event>)
    requires Settles(f)
    ensures Settles(Run(f, events))
    decreases |events|
  {
    if events != [] {
      var g := if events[0] == Click then ShowSuccess(f) else if f.pending != [] then TimerFired(f) else f;
      assert Settles(g);
      RunSettles(g, events[1..]);
    }
  }

  /** With the intended `showCopySuccess`, however the clicks and timers interleave, once every
      timer has fired the button is back to `复制` without the `copied` class. */
  lemma ButtonAlwaysRecovers(events: seq<Event>)
    ensures Run(Idle, events).pending == [] ==> Run(Idle, events) == Idle
  {
    RunSettles(Idle, events);
  }

  // ---------------------------------------------------------------------------------------
  // the page

  /** A child of `document.body`: the temporary textarea of the fallback, or anything else. */
  datatype BodyNode = TextArea(value: string) | OtherNode

  /** The page: the children of `document.body` and the clipboard. */
  class Page {
    var body: seq<BodyNode>
    var clipboard: string

    constructor(body: seq<BodyNode>, clipboard: string)
      ensures this.body == body && this.clipboard == clipboard
    {
      this.body := body;
      this.clipboard := clipboard;
    }
  }

  /** A button made by `createCopyButton`, with the code text captured when it was made. */
  class CopyButton {
    const code: string
    var text: string
    var copied: bool
    var pending: seq<string>

    function State(): Feedback
      reads this
    {
      Feedback(text, copied, pending)
    }

    /** `createCopyButton(codeText)`: class `copy-code-btn`, text `复制`. */
    constructor(codeText: string)
      ensures code == codeText && State() == Idle
    {
      code := codeText;
      text := CopyLabel;
      copied := false;
      pending := [];
    }

    /** `showCopySuccess`: the text the button has now is what its timer will restore. */
    method ShowCopySuccess()
      modifies this
      ensures State() == ShowSuccessAsWritten(old(State()))
    {
      var originalText := text;
      text := CopiedLabel;
      copied := true;
      pending := pending + [originalText];
    }

    /** The two-second timer of the oldest click fires. */
    method TimerFires()
      requires pending != []
      modifies this
      ensures State() == TimerFired(old(State()))
    {
      text := pending[0];
      copied := false;
      pending := pending[1..];
    }

    /** `fallbackCopy`: a textarea holding the code is appended to the body and selected, then
        `execCommand('copy')` runs.  `execThrows` is whether that call throws and `execCopies`
        whether it put the selection on the clipboard; its boolean result is not looked at, so
        success is shown whenever it returns, copied or not.  The textarea is removed in
        either case. */
    method FallbackCopy(page: Page, execThrows: bool, execCopies: bool)
      modifies this, page
      ensures page.body == old(page.body)
      ensures page.clipboard == if !execThrows && execCopies then code else old(page.clipboard)
      ensures !execThrows ==> State() == ShowSuccessAsWritten(old(State()))
      ensures execThrows ==> State() == old(State())
    {
      page.body := page.body + [TextArea(code)];
      if !execThrows {
        if execCopies {
          page.clipboard := code;
        }
        ShowCopySuccess();
      }
      page.body := page.body[..|page.body| - 1];
    }

    /** `copyToClipboard`, run by a click: the clipboard API first, the fallback when it
        rejects. */
    method Clicked(page: Page, clipboardSucceeds: bool, execThrows: bool, execCopies: bool)
      modifies this, page
      ensures page.body == old(page.body)
      ensures page.clipboard == if clipboardSucceeds || (!execThrows && execCopies) then code else old(page.clipboard)
      ensures clipboardSucceeds || !execThrows ==> State() == ShowSuccessAsWritten(old(State()))
      ensures !clipboardSucceeds && execThrows ==> State() == old(State())
    {
      if clipboardSucceeds {
        page.clipboard := code;
        ShowCopySuccess();
      } else {
        FallbackCopy(page, execThrows, execCopies);
      }
    }
  }

  // ---------------------------------------------------------------------------------------
  // the pass

  /** A child of a `pre`: a `code` element with its text, a copy button, or anything else. */
  datatype Node = CodeNode(text: string) | ButtonNode(button: CopyButton) | Other

  /** A `pre` element: whether it has the class `hljs`, and its children. */
  datatype Block = Block(hljs: bool, children: seq<Node>)

  /** `pre.querySelector('.copy-code-btn')` finds something. */
  predicate HasButton(children: seq<Node>) {
    exists k :: 0 <= k < |children| && children[k].ButtonNode?
  }

  /** The text of the first `code` child, if there is one. */
  function CodeText(children: seq<Node>): (r: Option<string>)
    ensures r.Some? <==> exists k :: 0 <= k < |children| && children[k].CodeNode?
    ensures r.Some? ==> exists k :: 0 <= k < |children| && children[k] == CodeNode(r.value)
  {
    if children == [] then None
    else if children[0].CodeNode? then Some(children[0].text)
    else
      var r := CodeText(children[1..]);
      assert forall k :: 1 <= k < |children| ==> children[k] == children[1..][k - 1];
      r
  }

  /** The blocks the pass adds a button to: `pre.hljs` with a `code` child and no button. */
  predicate NeedsButton(b: Block) {
    b.hljs && !HasButton(b.children) && CodeText(b.children).Some?
  }

  /** Once a block has its button, a repeat pass skips it. */
  lemma ButtonAddedOnce(b: Block, button: CopyButton)
    ensures !NeedsButton(b.(children := b.children + [ButtonNode(button)]))
  {
    var cs := b.children + [ButtonNode(button)];
    assert cs[|cs| - 1].ButtonNode?;
  }

  /** `addCopyButtons`: when the content element is mounted (`present`), every `pre.hljs` with
      a `code` child and no copy button gets, as its last child, a fresh button carrying the
      text of that `code`; every other block, and every block when it is not mounted, is left
      as it was. */
  method AddCopyButtons(dom: array<Block>, present: bool)
    modifies dom
    ensures forall i :: 0 <= i < dom.Length && !(present && NeedsButton(old(dom[i]))) ==> dom[i] == old(dom[i])
    ensures forall i :: 0 <= i < dom.Length && present && NeedsButton(old(dom[i])) ==>
              var old_cs := old(dom[i].children);
              && dom[i].hljs
              && |dom[i].children| == |old_cs| + 1
              && dom[i].children[..|old_cs|] == old_cs
              && dom[i].children[|old_cs|].ButtonNode?
              && fresh(dom[i].children[|old_cs|].button)
              && dom[i].children[|old_cs|].button.code == CodeText(old_cs).value
              && dom[i].children[|old_cs|].button.State() == Idle
  {
    if !present {
      return;
    }
    var i := 0;
    while i < dom.Length
      invariant 0 <= i <= dom.Length
      invariant forall j :: i <= j < dom.Length ==> dom[j] == old(dom[j])
      invariant forall j :: 0 <= j < i && !NeedsButton(old(dom[j])) ==> dom[j] == old(dom[j])
      invariant forall j :: 0 <= j < i && NeedsButton(old(dom[j])) ==>
                  var old_cs := old(dom[j].children);
                  && dom[j].hljs
                  && |dom[j].children| == |old_cs| + 1
                  && dom[j].children[..|old_cs|] == old_cs
                  && dom[j].children[|old_cs|].ButtonNode?
                  && fresh(dom[j].children[|old_cs|].button)
                  && dom[j].children[|old_cs|].button.code == CodeText(old_cs).value
                  && dom[j].children[|old_cs|].button.State() == Idle
    {
      var pre := dom[i];
      if pre.hljs && !HasButton(pre.children) {
        var code := CodeText(pre.children);
        if code.Some? {
          var button := new CopyButton(code.value);
          dom[i] := pre.(children := pre.children + [ButtonNode(button)]);
        }
      }
      i := i + 1;
    }
  }
}
