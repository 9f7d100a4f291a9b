/**
 * `useMermaidRenderer` (src/composables/useMermaidRenderer.ts): a pass over the `pre.mermaid`
 * elements of an article that have not been marked `mermaid-rendered`.  The elements are the
 * array `dom`; `mermaid.render` is an oracle whose outcome is applied right after the element
 * is marked, and the random fallback ids are parameters.
 */
module MermaidRenderer {
  import opened Wrappers
  import opened Text
  import opened Html

  /** A `pre.mermaid` element, or what replaced it inside its `.mermaid-container`. */
  datatype Node =
      /** the element: its id, its text, whether it carries `mermaid-rendered`, whether its
          parent is a `.mermaid-container`, and the svg written into it, if any */
    | MermaidPre(id: string, text: string, rendered: bool, inContainer: bool, innerSvg: Option<string>)
      /** the container's contents replaced by the rendered svg */
    | ContainerSvg(svg: string)
      /** the container's contents replaced by the error block for `code`, whose markup is
          `ErrorHtml(code)` */
    | ContainerError(code: string)

  /** One call of `mermaid.render(renderId, code)`. */
  datatype RenderCall = RenderCall(renderId: string, code: string)

  /** `mermaid.render`: the svg for an id and a code, or a rejection; and the random ids. */
  datatype MermaidEnv = MermaidEnv(render: (string, string) -> Option<string>, fallbackIds: nat -> string)

  /** The markup `handleMermaidError` writes into the container. */
  function ErrorHtml(code: string): string {
    "<pre class=\"mermaid-error\">" + EscapeHtml(code) + "</pre>"
  }

  /** The error block shows the code and nothing else. */
  lemma ErrorHtmlShowsCode(code: string)
    ensures var h := ErrorHtml(code);
            var body := h[|"<pre class=\"mermaid-error\">"|..|h| - |"</pre>"|];
            && Unescape(body) == code
            && forall i :: 0 <= i < |body| ==> body[i] != '<' && body[i] != '>'
  {
    var h := ErrorHtml(code);
    assert h[|"<pre class=\"mermaid-error\">"|..|h| - |"</pre>"|] == EscapeHtml(code);
    UnescapeEscape(code);
    EscapeNoMarkup(code);
  }

  /** `pre.mermaid:not(.mermaid-rendered)` */
  predicate Selected(n: Node) {
    n.MermaidPre? && !n.rendered
  }

  /** The id `mermaid.render` is given for element `i`: its id, or the random fallback, with
      `-svg`. */
  function RenderId(n: Node, env: MermaidEnv, i: nat): (r: string)
    requires n.MermaidPre?
    ensures n.id != "" ==> r == n.id + "-svg"
  {
    (if n.id != "" then n.id else env.fallbackIds(i)) + "-svg"
  }

  /** `handleMermaidError(element, code)`: the error block replaces the container's contents
      when the element sits in a `.mermaid-container`; otherwise nothing changes. */
  function HandleMermaidError(n: Node, code: string): (r: Node)
    requires n.MermaidPre?
  {
    if n.inContainer then ContainerError(code) else n
  }

  /** The element after `renderMermaidElement` and the outcome of its render, and the call
      made, if any. */
  datatype ElementResult = ElementResult(node: Node, call: Option<RenderCall>)

  /** `renderMermaidElement` on element `i`. */
  function RenderElement(n: Node, env: MermaidEnv, i: nat): ElementResult
    requires n.MermaidPre?
  {
    var code := n.text;
    if IsBlank(code) then ElementResult(n, None)
    else
      var marked := n.(rendered := true);
      var renderId := RenderId(n, env, i);
      var node :=
        match env.render(renderId, code)
        case Some(svg) => if n.inContainer then ContainerSvg(svg) else marked.(innerSvg := Some(svg))
        case None => HandleMermaidError(marked, code);
      ElementResult(node, Some(RenderCall(renderId, code)))
  }

  /** A blank element is neither marked nor rendered. */
  lemma BlankNotRendered(n: Node, env: MermaidEnv, i: nat)
    requires n.MermaidPre? && IsBlank(n.text)
    ensures RenderElement(n, env, i) == ElementResult(n, None)
  {
  }

  /** A non-blank element is rendered once, with its own code under its id with `-svg`, and
      whatever the outcome it is no longer selected afterwards. */
  lemma RenderedOnce(n: Node, env: MermaidEnv, i: nat)
    requires n.MermaidPre? && !IsBlank(n.text)
    ensures var r := RenderElement(n, env, i);
            && r.call == Some(RenderCall(RenderId(n, env, i), n.text))
            && !Selected(r.node)
  {
  }

  /** A successful render puts the svg into the container when there is one, and into the
      element otherwise. */
  lemma SuccessPlacesSvg(n: Node, env: MermaidEnv, i: nat, svg: string)
    requires n.MermaidPre? && !IsBlank(n.text) && env.render(RenderId(n, env, i), n.text) == Some(svg)
    ensures RenderElement(n, env, i).node
         == if n.inContainer then ContainerSvg(svg) else n.(rendered := true, innerSvg := Some(svg))
  {
  }

  /** A failed render shows the error block inside a `.mermaid-container`; elsewhere only the
      marker changed. */
  lemma FailureShowsError(n: Node, env: MermaidEnv, i: nat)
    requires n.MermaidPre? && !IsBlank(n.text) && env.render(RenderId(n, env, i), n.text).None?
    ensures RenderElement(n, env, i).node
         == if n.inContainer then ContainerError(n.text) else n.(rendered := true)
  {
  }

  // ---------------------------------------------------------------------------------------
  // the pass

  /** What the pass does to element `i`: only selected elements are rendered. */
  function Outcome(ns: seq<Node>, env: MermaidEnv, i: nat): ElementResult
    requires i < |ns|
  {
    if Selected(ns[i]) then RenderElement(ns[i], env, i) else ElementResult(ns[i], None)
  }

  function PassNodes(ns: seq<Node>, env: MermaidEnv): (r: seq<Node>)
    ensures |r| == |ns|
  {
    seq(|ns|, i requires 0 <= i < |ns| => Outcome(ns, env, i).node)
  }

  /** The `mermaid.render` calls of the first `n` elements, in document order. */
  function PassCalls(ns: seq<Node>, env: MermaidEnv, n: nat): seq<RenderCall>
    requires n <= |ns|
  {
    if n == 0 then []
    else
      var c := Outcome(ns, env, n - 1).call;
      PassCalls(ns, env, n - 1) + (if c.Some? then [c.value] else [])
  }

  /** Elements the selector does not match are left alone. */
  lemma UnselectedUnchanged(ns: seq<Node>, env: MermaidEnv, i: nat)
    requires i < |ns| && !Selected(ns[i])
    ensures PassNodes(ns, env)[i] == ns[i]
  {
  }

  /** After a pass, no element is selected except blank ones, which the pass leaves as they
      were. */
  lemma PassSettles(ns: seq<Node>, env: MermaidEnv, i: nat)
    requires i < |ns|
    ensures var m := PassNodes(ns, env)[i];
            Selected(m) ==> m == ns[i] && IsBlank(m.text)
  {
    assert PassNodes(ns, env)[i] == Outcome(ns, env, i).node;
    if Selected(ns[i]) && !IsBlank(ns[i].text) {
      RenderedOnce(ns[i], env, i);
    }
  }

  /** A pass over nodes where every selected element is blank calls nothing. */
  lemma {:induction false} NoCallsWhenSettled(ns: seq<Node>, env: MermaidEnv, n: nat)
    requires n <= |ns|
    requires forall i :: 0 <= i < |ns| && Selected(ns[i]) ==> IsBlank(ns[i].text)
    ensures PassCalls(ns, env, n) == []
  {
    if n > 0 {
      NoCallsWhenSettled(ns, env, n - 1);
    }
  }

  /** A repeat pass never re-renders: it makes no `mermaid.render` call and changes nothing. */
  lemma RepeatPassIsNoOp(ns: seq<Node>, env: MermaidEnv)
    ensures var m := PassNodes(ns, env);
            PassCalls(m, env, |m|) == [] && PassNodes(m, env) == m
  {
    var m := PassNodes(ns, env);
    forall i | 0 <= i < |m| ensures Selected(m[i]) ==> IsBlank(m[i].text) {
      PassSettles(ns, env, i);
    }
    NoCallsWhenSettled(m, env, |m|);
    forall i | 0 <= i < |m| ensures PassNodes(m, env)[i] == m[i] {
      PassSettles(ns, env, i);
    }
  }

  /** Each render call uses the id of the element it renders with `-svg`: the calls of a pass
      are those of its selected, non-blank elements, in order. */
  lemma {:induction false} CallsOfPass(ns: seq<Node>, env: MermaidEnv, n: nat)
    requires n <= |ns|
    ensures |PassCalls(ns, env, n)| <= n
    ensures forall c :: c in PassCalls(ns, env, n) ==>
              exists i :: 0 <= i < n && Selected(ns[i]) && !IsBlank(ns[i].text)
                          && c == RenderCall(RenderId(ns[i], env, i), ns[i].text)
  {
    if n > 0 {
      CallsOfPass(ns, env, n - 1);
      if Selected(ns[n - 1]) && !IsBlank(ns[n - 1].text) {
        RenderedOnce(ns[n - 1], env, n - 1);
      }
    }
  }

  // ---------------------------------------------------------------------------------------
  // the composable

  /** One `useMermaidRenderer` instance: the init-once flag, with the calls made to mermaid. */
  class MermaidRenderer {
    var mermaidInitialized: bool
    /** how often `mermaid.initialize` was called */
    var initializeCalls: nat
    /** the `mermaid.render` calls, in order */
    var renderCalls: seq<RenderCall>

    /** `mermaid.initialize` has run exactly when the flag is set. */
    predicate Valid()
      reads this
    {
      initializeCalls == if mermaidInitialized then 1 else 0
    }

    constructor()
      ensures Valid() && !mermaidInitialized && renderCalls == []
    {
      mermaidInitialized := false;
      initializeCalls := 0;
      renderCalls := [];
    }

    /** `initializeMermaid`: configures mermaid only the first time. */
    method InitializeMermaid()
      requires Valid()
      modifies this
      ensures Valid() && mermaidInitialized && initializeCalls == 1
      ensures renderCalls == old(renderCalls)
    {
      if !mermaidInitialized {
        initializeCalls := initializeCalls + 1;
        mermaidInitialized := true;
      }
    }

    /** `renderMermaidElement` on element `i`: mark it, then apply the render outcome. */
    method RenderMermaidElement(dom: array<Node>, i: nat, env: MermaidEnv)
      requires i < dom.Length && dom[i].MermaidPre?
      modifies this, dom
      ensures var r := RenderElement(old(dom[i]), env, i);
              && dom[..] == old(dom[..])[i := r.node]
              && renderCalls == old(renderCalls) + (if r.call.Some? then [r.call.value] else [])
      ensures mermaidInitialized == old(mermaidInitialized) && initializeCalls == old(initializeCalls)
    {
      var element := dom[i];
      var id := if element.id != "" then element.id else env.fallbackIds(i);
      var code := element.text;
      if IsBlank(code) {
        return;
      }
      element := element.(rendered := true);
      dom[i] := element;
      var renderId := id + "-svg";
      renderCalls := renderCalls + [RenderCall(renderId, code)];
      var outcome := env.render(renderId, code);
      if outcome.Some? {
        if element.inContainer {
          dom[i] := ContainerSvg(outcome.value);
        } else {
          dom[i] := element.(innerSvg := Some(outcome.value));
        }
      } else {
        dom[i] := HandleMermaidError(element, code);
      }
    }

    /** `initMermaid`: when the content element is mounted (`present`), initialise once, then
        render every selected element; otherwise nothing happens. */
    method InitMermaid(dom: array<Node>, env: MermaidEnv, present: bool)
      requires Valid()
      modifies this, dom
      ensures Valid()
      ensures !present ==> unchanged(this) && dom[..] == old(dom[..])
      ensures present ==> mermaidInitialized && initializeCalls == 1
      ensures present ==> dom[..] == PassNodes(old(dom[..]), env)
      ensures present ==> renderCalls == old(renderCalls) + PassCalls(old(dom[..]), env, dom.Length)
    {
      if !present {
        return;
      }
      InitializeMermaid();
      ghost var ns := dom[..];
      ghost var calls := renderCalls;
      var i := 0;
      while i < dom.Length
        invariant 0 <= i <= dom.Length
        invariant forall j :: 0 <= j < i ==> dom[j] == Outcome(ns, env, j).node
        invariant forall j :: i <= j < dom.Length ==> dom[j] == ns[j]
        invariant renderCalls == calls + PassCalls(ns, env, i)
        invariant Valid() && mermaidInitialized && initializeCalls == 1
      {
        if dom[i].MermaidPre? && !dom[i].rendered {
          RenderMermaidElement(dom, i, env);
        }
        i := i + 1;
      }
      assert dom[..] == PassNodes(ns, env);
    }
  }
}
