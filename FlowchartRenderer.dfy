/**
 * `useFlowchartRenderer` (src/composables/useFlowchartRenderer.ts): a re-runnable pass over the
 * `.flowchart-container` elements of an article.  The containers a query finds are the array
 * `dom`, in document order, and each of them carries an identity (`containerKeys`); the
 * `WeakMap` code cache is a map from container identity to the code first seen there.
 * flowchart.js's `parse` and `drawSVG` are oracles, the random ids are parameters, and each
 * `nextTick`/`setTimeout` callback runs as one sequential step.
 */
module FlowchartRenderer {
  import opened Wrappers
  import opened Text
  import opened Html

  /** The colours `getThemeColors` picks for the current theme. */
  datatype ThemeColors = ThemeColors(textColor: string, lineColor: string, fillColor: string, isDark: bool)

  /** `getThemeColors`: light-on-dark when the root carries the `dark` class, dark-on-light
      otherwise; text and lines always share a colour that differs from the fill. */
  function GetThemeColors(isDark: bool): (t: ThemeColors)
    ensures t.isDark == isDark
    ensures t.textColor == t.lineColor && t.textColor != t.fillColor
  {
    if isDark then ThemeColors("#e0e0e0", "#e0e0e0", "#2a2a2a", true)
    else ThemeColors("#000000", "#000000", "#ffffff", false)
  }

  /** Switching the theme changes every colour a diagram is drawn with. */
  lemma ThemesDiffer()
    ensures var d, l := GetThemeColors(true), GetThemeColors(false);
            d.textColor != l.textColor && d.lineColor != l.lineColor && d.fillColor != l.fillColor
  {
    var d, l := GetThemeColors(true), GetThemeColors(false);
    assert d.textColor[1] != l.textColor[1];
    assert d.fillColor[1] != l.fillColor[1];
  }

  /** The id `createSvgContainer` gives the mount of the diagram with id `id`. */
  function SvgContainerId(id: string): (r: string)
    ensures |r| == |id| + 4 && r[..|id|] == id
  {
    id + "-svg"
  }

  /** Distinct diagram ids get distinct mount ids. */
  lemma SvgContainerIdInjective(a: string, b: string)
    requires SvgContainerId(a) == SvgContainerId(b)
    ensures a == b
  {
    assert a == SvgContainerId(a)[..|a|];
  }

  /** What a `.flowchart-container` holds. */
  datatype Container =
      /** a `pre.flowchart` element: its id, its text, whether it carries `flowchart-rendered`,
          and whether it is a direct child of the container (only then is the container its
          `parentElement`) */
    | FlowPre(id: string, text: string, rendered: bool, direct: bool)
      /** a `div.flowchart-svg-container`, with the colours `drawSVG` drew it in, if it did */
    | SvgMount(id: string, drawn: Option<ThemeColors>)
      /** the error block `handleFlowchartError` writes for `code`: its markup is `ErrorHtml(code)` */
    | FlowError(code: string)

  /** flowchart.js: whether `parse` accepts the code, and whether `drawSVG` succeeds on it. */
  datatype FlowchartLib = FlowchartLib(parses: string -> bool, draws: string -> bool)

  /** Everything a pass depends on besides the containers and the cache: which elements the
      containers are (`containerKeys(i)` is the identity of the `i`-th container the query
      finds, the key of the `WeakMap`), the theme, the library, the random ids of
      `renderFlowchartElement` and of the forced restore, and how the browser turns the
      restored markup into the text of the new `pre`. */
  datatype PassEnv = PassEnv(
    containerKeys: nat -> nat,
    isDark: bool,
    lib: FlowchartLib,
    fallbackIds: nat -> string,
    restoreIds: nat -> string,
    htmlText: string -> string)

  /** The browser keeps markup without `<` and `&` as text. */
  ghost predicate KeepsPlainText(htmlText: string -> string) {
    forall s :: Free(s, '<') && Free(s, '&') ==> htmlText(s) == s
  }

  /** `querySelectorAll` lists each element once: the first `n` containers are distinct
      elements. */
  predicate DistinctKeys(env: PassEnv, n: nat) {
    forall i, j :: 0 <= i < j < n ==> env.containerKeys(i) != env.containerKeys(j)
  }

  function Lookup(cache: map<nat, string>, k: nat): Option<string> {
    if k in cache then Some(cache[k]) else None
  }

  /** The markup `handleFlowchartError` writes into the container. */
  function ErrorHtml(code: string): string {
    "<pre class=\"flowchart-error\">" + EscapeHtml(code) + "</pre>"
  }

  /** The error block shows the code and nothing else: its text decodes back to the code and
      holds no markup character. */
  lemma ErrorHtmlShowsCode(code: string)
    ensures var h := ErrorHtml(code);
            var body := h[|"<pre class=\"flowchart-error\">"|..|h| - |"</pre>"|];
            && Unescape(body) == code
            && forall i :: 0 <= i < |body| ==> body[i] != '<' && body[i] != '>'
  {
    var h := ErrorHtml(code);
    assert h[|"<pre class=\"flowchart-error\">"|..|h| - |"</pre>"|] == EscapeHtml(code);
    UnescapeEscape(code);
    EscapeNoMarkup(code);
  }

  /** `handleFlowchartError(element, code)`: the error block replaces the container's contents
      when the element sits in it; otherwise nothing changes. */
  function HandleFlowchartError(c: Container, code: string): (r: Container)
    requires c.FlowPre?
  {
    if c.direct then FlowError(code) else c
  }

  function ElementId(id: string, fallback: string): string {
    if id != "" then id else fallback
  }

  /** The new contents of the container and the code written into the cache, if any. */
  datatype ElementResult = ElementResult(container: Container, store: Option<string>)

  /** The code `renderFlowchartElement` works on: the element's text, or the cached code when a
      forced render finds the element blank. */
  function CodeOf(c: Container, cached: Option<string>, force: bool): string
    requires c.FlowPre?
  {
    if IsBlank(c.text) && force && c.direct && cached.Some? then cached.value else c.text
  }

  /** The code `renderFlowchartElement` writes into the cache, if any. */
  function StoreOf(c: Container, cached: Option<string>, force: bool): Option<string>
    requires c.FlowPre?
  {
    var code := CodeOf(c, cached, force);
    if !IsBlank(code) && c.direct && cached.None? then Some(code) else None
  }

  /** `renderFlowchartElement(element, force)` on the `pre` of container `i`. */
  function RenderElement(c: Container, cached: Option<string>, force: bool, env: PassEnv, i: nat): ElementResult
    requires c.FlowPre?
  {
    var code := CodeOf(c, cached, force);
    var store := StoreOf(c, cached, force);
    if IsBlank(code) || (c.rendered && !force) then ElementResult(c, store)
    else
      var marked := c.(rendered := true);
      if !env.lib.parses(code) then ElementResult(HandleFlowchartError(marked, code), store)
      else if c.direct then
        var drawn := if env.lib.draws(code) then Some(GetThemeColors(env.isDark)) else None;
        ElementResult(SvgMount(SvgContainerId(ElementId(c.id, env.fallbackIds(i))), drawn), store)
      else ElementResult(marked, store)
  }

  lemma RenderStoresStoreOf(c: Container, cached: Option<string>, force: bool, env: PassEnv, i: nat)
    requires c.FlowPre?
    ensures RenderElement(c, cached, force, env, i).store == StoreOf(c, cached, force)
  {
  }

  /** The cache is written once: only when the container has no entry yet, the element is
      the container's child and the code is not blank. */
  lemma CacheWrittenOnce(c: Container, cached: Option<string>, force: bool)
    requires c.FlowPre?
    ensures var store := StoreOf(c, cached, force);
            && (store.Some? <==> cached.None? && c.direct && !IsBlank(c.text))
            && (store.Some? ==> store.value == c.text)
  {
  }

  /** The cache is consulted only by a forced render of a blank element: otherwise the
      container ends the same whether or not the container has an entry. */
  lemma CacheConsultedOnlyWhenForced(c: Container, cached: Option<string>, force: bool, env: PassEnv, i: nat)
    requires c.FlowPre? && !(force && IsBlank(c.text))
    ensures RenderElement(c, cached, force, env, i).container == RenderElement(c, None, force, env, i).container
  {
  }

  /** A blank code, after the fallback to the cache, leaves everything as it was. */
  lemma BlankCodeChangesNothing(c: Container, cached: Option<string>, force: bool, env: PassEnv, i: nat)
    requires c.FlowPre? && IsBlank(CodeOf(c, cached, force))
    ensures RenderElement(c, cached, force, env, i) == ElementResult(c, None)
  {
  }

  /** A non-forced render of an element marked `flowchart-rendered` leaves the container as it
      was; the cache may still receive its first entry. */
  lemma RenderedElementKept(c: Container, cached: Option<string>, env: PassEnv, i: nat)
    requires c.FlowPre? && c.rendered
    ensures RenderElement(c, cached, false, env, i).container == c
  {
  }

  /** A code that fails to parse becomes the error block when the element is the container's
      child, and only marks the element otherwise. */
  lemma ParseFailureShowsError(c: Container, cached: Option<string>, force: bool, env: PassEnv, i: nat)
    requires c.FlowPre? && (!c.rendered || force)
    requires var code := CodeOf(c, cached, force); !IsBlank(code) && !env.lib.parses(code)
    ensures var r := RenderElement(c, cached, force, env, i).container;
            if c.direct then r == FlowError(CodeOf(c, cached, force)) else r == c.(rendered := true)
  {
  }

  /** A code that parses replaces the container's contents with exactly one svg mount whose id
      is the element's id with `-svg`; a failing `drawSVG` leaves that mount in place undrawn,
      since the detached element no longer finds its container. */
  lemma ParseSuccessMounts(c: Container, cached: Option<string>, force: bool, env: PassEnv, i: nat)
    requires c.FlowPre? && c.direct && (!c.rendered || force)
    requires var code := CodeOf(c, cached, force); !IsBlank(code) && env.lib.parses(code)
    ensures var code := CodeOf(c, cached, force);
            var r := RenderElement(c, cached, force, env, i).container;
            && r.SvgMount?
            && r.id == SvgContainerId(ElementId(c.id, env.fallbackIds(i)))
            && (r.drawn.Some? <==> env.lib.draws(code))
            && (r.drawn.Some? ==> r.drawn.value == GetThemeColors(env.isDark))
  {
  }

  // ---------------------------------------------------------------------------------------
  // the pass over all containers

  /** The forced restore of one container: an svg mount, drawn or not, whose container has a
      non-empty cached code becomes a fresh, unmarked `pre.flowchart` holding that code. */
  function Restore(c: Container, cached: Option<string>, preId: string, htmlText: string -> string): Container {
    if c.SvgMount? && cached.Some? && cached.value != "" then FlowPre(preId, htmlText(cached.value), false, true)
    else c
  }

  function RestoreAll(cs: seq<Container>, cache: map<nat, string>, env: PassEnv): (r: seq<Container>)
    ensures |r| == |cs|
  {
    seq(|cs|, i requires 0 <= i < |cs| => Restore(cs[i], Lookup(cache, env.containerKeys(i)), env.restoreIds(i), env.htmlText))
  }

  /** What the render pass does to container `i`: `container.querySelector('pre.flowchart')`
      finds a `pre` only in a container that holds one. */
  function Outcome(cs: seq<Container>, cache: map<nat, string>, force: bool, env: PassEnv, i: nat): ElementResult
    requires i < |cs|
  {
    if cs[i].FlowPre? then RenderElement(cs[i], Lookup(cache, env.containerKeys(i)), force, env, i) else ElementResult(cs[i], None)
  }

  /** The code the render pass writes into the cache for container `i`, if any. */
  function StoreAt(cs: seq<Container>, cache: map<nat, string>, force: bool, env: PassEnv, i: nat): Option<string>
    requires i < |cs|
  {
    if cs[i].FlowPre? then StoreOf(cs[i], Lookup(cache, env.containerKeys(i)), force) else None
  }

  function RenderAll(cs: seq<Container>, cache: map<nat, string>, force: bool, env: PassEnv): (r: seq<Container>)
    ensures |r| == |cs|
  {
    seq(|cs|, i requires 0 <= i < |cs| => Outcome(cs, cache, force, env, i).container)
  }

  /** The containers while the render loop is at `n`: the first `n` rendered, the rest as
      they were. */
  function RenderedUpTo(cs: seq<Container>, cache: map<nat, string>, force: bool, env: PassEnv, n: nat): seq<Container>
    requires n <= |cs|
  {
    RenderAll(cs, cache, force, env)[..n] + cs[n..]
  }

  lemma RenderedStep(cs: seq<Container>, cache: map<nat, string>, force: bool, env: PassEnv, n: nat)
    requires n < |cs|
    ensures RenderedUpTo(cs, cache, force, env, n)[n] == cs[n]
    ensures RenderedUpTo(cs, cache, force, env, n)[n := Outcome(cs, cache, force, env, n).container]
            == RenderedUpTo(cs, cache, force, env, n + 1)
  {
  }

  /** The cache after the first `n` containers were rendered. */
  function CacheUpTo(cs: seq<Container>, cache: map<nat, string>, force: bool, env: PassEnv, n: nat): map<nat, string>
    requires n <= |cs|
  {
    if n == 0 then cache
    else
      var prev := CacheUpTo(cs, cache, force, env, n - 1);
      match StoreAt(cs, cache, force, env, n - 1)
      case Some(code) => prev[env.containerKeys(n - 1) := code]
      case None => prev
  }

  /** Rendering a container reads and writes only that container's cache entry: the entry of
      an element that is none of the first `n` containers is as it was. */
  lemma {:induction false} CacheUpToBeyond(cs: seq<Container>, cache: map<nat, string>, force: bool, env: PassEnv,
                                           n: nat, key: nat)
    requires n <= |cs|
    requires forall j :: 0 <= j < n ==> env.containerKeys(j) != key
    ensures Lookup(CacheUpTo(cs, cache, force, env, n), key) == Lookup(cache, key)
  {
    if n > 0 {
      CacheUpToBeyond(cs, cache, force, env, n - 1, key);
    }
  }

  /** The containers and the cache after a pass. */
  datatype PassState = PassState(containers: seq<Container>, cache: map<nat, string>)

  /** `initFlowchart(force)`: the forced restore, then the render pass over the restored
      containers. */
  function Pass(cs: seq<Container>, cache: map<nat, string>, force: bool, env: PassEnv): PassState {
    var restored := if force then RestoreAll(cs, cache, env) else cs;
    PassState(RenderAll(restored, cache, force, env), CacheUpTo(restored, cache, force, env, |restored|))
  }

  /** Over a whole pass, cached codes are never overwritten, and a new entry belongs to a
      container of the pass whose `pre` is its direct child. */
  lemma {:induction false} PassCacheWriteOnce(cs: seq<Container>, cache: map<nat, string>, force: bool, env: PassEnv, n: nat)
    requires n <= |cs|
    ensures var c := CacheUpTo(cs, cache, force, env, n);
            && (forall k :: k in cache ==> k in c && c[k] == cache[k])
            && (forall k :: k in c && k !in cache ==>
                  exists j :: 0 <= j < n && env.containerKeys(j) == k && cs[j].FlowPre? && cs[j].direct && !IsBlank(c[k]))
  {
    if n > 0 {
      PassCacheWriteOnce(cs, cache, force, env, n - 1);
      var prev, c := CacheUpTo(cs, cache, force, env, n - 1), CacheUpTo(cs, cache, force, env, n);
      var store := StoreAt(cs, cache, force, env, n - 1);
      var key := env.containerKeys(n - 1);
      if cs[n - 1].FlowPre? {
        CacheWrittenOnce(cs[n - 1], Lookup(cache, key), force);
      }
      if store.Some? {
        assert key !in cache && c == prev[key := store.value];
        assert cs[n - 1].FlowPre? && cs[n - 1].direct && !IsBlank(store.value);
        forall k | k in c && k !in cache
          ensures exists j :: 0 <= j < n && env.containerKeys(j) == k && cs[j].FlowPre? && cs[j].direct && !IsBlank(c[k])
        {
          if k == key {
            assert env.containerKeys(n - 1) == k;
          } else {
            var j :| 0 <= j < n - 1 && env.containerKeys(j) == k && cs[j].FlowPre? && cs[j].direct && !IsBlank(prev[k]);
            assert c[k] == prev[k];
          }
        }
      } else {
        assert c == prev;
      }
    }
  }

  /** Error blocks are never re-rendered, forced or not: `pre.flowchart-error` is not a
      `pre.flowchart`, and it is not an svg mount to restore. */
  lemma ErrorsStay(cs: seq<Container>, cache: map<nat, string>, force: bool, env: PassEnv, i: nat)
    requires i < |cs| && cs[i].FlowError?
    ensures Pass(cs, cache, force, env).containers[i] == cs[i]
  {
    var restored := if force then RestoreAll(cs, cache, env) else cs;
    assert force ==> restored[i] == Restore(cs[i], Lookup(cache, env.containerKeys(i)), env.restoreIds(i), env.htmlText);
    assert RenderAll(restored, cache, force, env)[i] == Outcome(restored, cache, force, env, i).container;
  }

  /** The forced restore touches only svg mounts whose container element has a non-empty
      cached code. */
  lemma RestoreOnlyCachedMounts(cs: seq<Container>, cache: map<nat, string>, env: PassEnv, i: nat)
    requires i < |cs|
    ensures var key := env.containerKeys(i);
            RestoreAll(cs, cache, env)[i] != cs[i] ==> cs[i].SvgMount? && key in cache && cache[key] != ""
  {
    assert RestoreAll(cs, cache, env)[i] == Restore(cs[i], Lookup(cache, env.containerKeys(i)), env.restoreIds(i), env.htmlText);
  }

  /** Containers the cache has never seen, such as those of a newly rendered article, are not
      restored: a forced pass finds no code for them and leaves their mounts alone. */
  lemma NewContainersNotRestored(cs: seq<Container>, cache: map<nat, string>, env: PassEnv)
    requires forall i :: 0 <= i < |cs| ==> env.containerKeys(i) !in cache
    ensures RestoreAll(cs, cache, env) == cs
  {
    forall i | 0 <= i < |cs| ensures RestoreAll(cs, cache, env)[i] == cs[i] {
      RestoreOnlyCachedMounts(cs, cache, env, i);
    }
  }

  /** A restored `pre` holds the cached code itself when that code has no `<` and no `&`. */
  lemma RestoredTextIsCode(cs: seq<Container>, cache: map<nat, string>, env: PassEnv, i: nat)
    requires i < |cs| && cs[i].SvgMount?
    requires var key := env.containerKeys(i); key in cache && cache[key] != ""
    requires var key := env.containerKeys(i); KeepsPlainText(env.htmlText) && Free(cache[key], '<') && Free(cache[key], '&')
    ensures RestoreAll(cs, cache, env)[i] == FlowPre(env.restoreIds(i), cache[env.containerKeys(i)], false, true)
  {
  }

  /** A theme switch (`rerenderFlowchart`) redraws every diagram it can restore in the new
      theme, under a fresh id. */
  lemma RerenderRedraws(cs: seq<Container>, cache: map<nat, string>, env: PassEnv, i: nat)
    requires i < |cs| && cs[i].SvgMount?
    requires var key := env.containerKeys(i); key in cache && !IsBlank(cache[key])
    requires var key := env.containerKeys(i); KeepsPlainText(env.htmlText) && Free(cache[key], '<') && Free(cache[key], '&')
    requires var key := env.containerKeys(i); env.lib.parses(cache[key]) && env.lib.draws(cache[key])
    requires env.restoreIds(i) != ""
    ensures Pass(cs, cache, true, env).containers[i]
         == SvgMount(SvgContainerId(env.restoreIds(i)), Some(GetThemeColors(env.isDark)))
  {
    var key := env.containerKeys(i);
    var restored := RestoreAll(cs, cache, env);
    assert cache[key] != "";
    RestoredTextIsCode(cs, cache, env, i);
    assert Outcome(restored, cache, true, env, i).container
        == SvgMount(SvgContainerId(env.restoreIds(i)), Some(GetThemeColors(env.isDark)));
  }

  /** After one render, a non-forced render of the same container changes nothing. */
  lemma RenderSettles(c: Container, cached: Option<string>, env: PassEnv, i: nat)
    requires c.FlowPre?
    ensures var r := RenderElement(c, cached, false, env, i);
            var cached' := if r.store.Some? then r.store else cached;
            !r.container.FlowPre? || RenderElement(r.container, cached', false, env, i) == ElementResult(r.container, None)
  {
    var r := RenderElement(c, cached, false, env, i);
    if r.container.FlowPre? {
      var cached' := if r.store.Some? then r.store else cached;
      var c' := r.container;
      assert c'.text == c.text && c'.direct == c.direct;
      assert c.direct && !IsBlank(c.text) ==> c.rendered && cached'.Some?;
    }
  }

  /** The state after a pass: each container's cache entry is the one its render left. */
  lemma {:induction false} CacheUpToAt(cs: seq<Container>, cache: map<nat, string>, force: bool, env: PassEnv, n: nat, k: nat)
    requires k < n <= |cs| && DistinctKeys(env, |cs|)
    ensures var store := StoreAt(cs, cache, force, env, k);
            var key := env.containerKeys(k);
            Lookup(CacheUpTo(cs, cache, force, env, n), key) == if store.Some? then store else Lookup(cache, key)
  {
    var key := env.containerKeys(k);
    var prev, c := CacheUpTo(cs, cache, force, env, n - 1), CacheUpTo(cs, cache, force, env, n);
    var last := StoreAt(cs, cache, force, env, n - 1);
    assert c == if last.Some? then prev[env.containerKeys(n - 1) := last.value] else prev;
    if k < n - 1 {
      CacheUpToAt(cs, cache, force, env, n - 1, k);
      assert env.containerKeys(n - 1) != key;
      assert Lookup(c, key) == Lookup(prev, key);
    } else {
      CacheUpToBeyond(cs, cache, force, env, n - 1, key);
    }
  }

  /** A second pass over settled containers leaves the cache as it is. */
  lemma {:induction false} SettledCacheKept(st: PassState, env: PassEnv, n: nat)
    requires n <= |st.containers|
    requires forall k :: 0 <= k < |st.containers| ==> StoreAt(st.containers, st.cache, false, env, k).None?
    ensures CacheUpTo(st.containers, st.cache, false, env, n) == st.cache
  {
    if n > 0 {
      SettledCacheKept(st, env, n - 1);
      assert StoreAt(st.containers, st.cache, false, env, n - 1).None?;
    }
  }

  /** A second non-forced pass over the same containers is a no-op: every container and the
      cache stay as the first pass left them. */
  lemma NonForcedPassIdempotent(cs: seq<Container>, cache: map<nat, string>, env: PassEnv)
    requires DistinctKeys(env, |cs|)
    ensures var st := Pass(cs, cache, false, env);
            Pass(st.containers, st.cache, false, env) == st
  {
    var st := Pass(cs, cache, false, env);
    forall k | 0 <= k < |cs|
      ensures Outcome(st.containers, st.cache, false, env, k) == ElementResult(st.containers[k], None)
      ensures StoreAt(st.containers, st.cache, false, env, k).None?
    {
      CacheUpToAt(cs, cache, false, env, |cs|, k);
      if cs[k].FlowPre? {
        RenderSettles(cs[k], Lookup(cache, env.containerKeys(k)), env, k);
      }
    }
    SettledCacheKept(st, env, |cs|);
    assert RenderAll(st.containers, st.cache, false, env) == st.containers;
  }

  // ---------------------------------------------------------------------------------------
  // the composable

  /** One `useFlowchartRenderer` instance: its code cache, keyed by container element. */
  class FlowchartRenderer {
    var codeMap: map<nat, string>

    constructor()
      ensures codeMap == map[]
    {
      codeMap := map[];
    }

    /** `renderFlowchartElement` on the `pre` of container `i`. */
    method RenderFlowchartElement(dom: array<Container>, i: nat, force: bool, env: PassEnv)
      requires i < dom.Length && dom[i].FlowPre?
      modifies this, dom
      ensures var key := env.containerKeys(i);
              var r := RenderElement(old(dom[i]), Lookup(old(codeMap), key), force, env, i);
              && dom[..] == old(dom[..])[i := r.container]
              && codeMap == if r.store.Some? then old(codeMap)[key := r.store.value] else old(codeMap)
    {
      var container := env.containerKeys(i);
      var element := dom[i];
      ghost var r := RenderElement(element, Lookup(codeMap, container), force, env, i);
      var code := element.text;
      if IsBlank(code) && force && element.direct && container in codeMap {
        code := codeMap[container];
      }
      assert code == CodeOf(element, Lookup(codeMap, container), force);
      if !IsBlank(code) && element.direct && container !in codeMap {
        codeMap := codeMap[container := code];
      }
      assert codeMap == if r.store.Some? then old(codeMap)[container := r.store.value] else old(codeMap);
      if IsBlank(code) || (element.rendered && !force) {
        return;
      }
      element := element.(rendered := true);
      if !env.lib.parses(code) {
        dom[i] := HandleFlowchartError(element, code);
      } else if element.direct {
        var id := ElementId(element.id, env.fallbackIds(i));
        var drawn := None;
        if env.lib.draws(code) {
          drawn := Some(GetThemeColors(env.isDark));
        }
        dom[i] := SvgMount(SvgContainerId(id), drawn);
      } else {
        dom[i] := element;
      }
    }

    /** The render loop over the containers. */
    method RenderPass(dom: array<Container>, force: bool, env: PassEnv)
      requires DistinctKeys(env, dom.Length)
      modifies this, dom
      ensures dom[..] == RenderAll(old(dom[..]), old(codeMap), force, env)
      ensures codeMap == CacheUpTo(old(dom[..]), old(codeMap), force, env, dom.Length)
    {
      ghost var cs, cache := dom[..], codeMap;
      var i := 0;
      while i < dom.Length
        invariant 0 <= i <= dom.Length == |cs|
        invariant dom[..] == RenderedUpTo(cs, cache, force, env, i)
        invariant codeMap == CacheUpTo(cs, cache, force, env, i)
      {
        RenderPassStep(dom, i, force, env, cs, cache);
        i := i + 1;
      }
      assert RenderedUpTo(cs, cache, force, env, i) == RenderAll(cs, cache, force, env);
    }

    /** One turn of the render loop: container `i` is rendered if it holds a `pre`. */
    method RenderPassStep(dom: array<Container>, i: nat, force: bool, env: PassEnv,
                          ghost cs: seq<Container>, ghost cache: map<nat, string>)
      requires i < dom.Length == |cs| && DistinctKeys(env, dom.Length)
      requires dom[..] == RenderedUpTo(cs, cache, force, env, i)
      requires codeMap == CacheUpTo(cs, cache, force, env, i)
      modifies this, dom
      ensures dom[..] == RenderedUpTo(cs, cache, force, env, i + 1)
      ensures codeMap == CacheUpTo(cs, cache, force, env, i + 1)
    {
      RenderedStep(cs, cache, force, env, i);
      assert dom[i] == cs[i];
      if dom[i].FlowPre? {
        var key := env.containerKeys(i);
        assert forall j :: 0 <= j < i ==> env.containerKeys(j) != key;
        CacheUpToBeyond(cs, cache, force, env, i, key);
        RenderStoresStoreOf(cs[i], Lookup(cache, key), force, env, i);
        RenderFlowchartElement(dom, i, force, env);
      }
    }

    /** `initFlowchart(force)`: when forced, the restore loop first turns each svg mount whose
        container has a cached code back into a `pre`; then the render loop over the same
        containers. `mounted` and `stillMounted` say whether the content element is there at
        the start and again when the render timer fires; without it that step does nothing. */
    method InitFlowchart(dom: array<Container>, force: bool, env: PassEnv, mounted: bool, stillMounted: bool)
      requires DistinctKeys(env, dom.Length)
      modifies this, dom
      ensures !mounted ==> unchanged(this) && dom[..] == old(dom[..])
      ensures mounted && !stillMounted ==> codeMap == old(codeMap)
      ensures mounted && !stillMounted ==>
                dom[..] == (if force then RestoreAll(old(dom[..]), old(codeMap), env) else old(dom[..]))
      ensures mounted && stillMounted ==>
                Pass(old(dom[..]), old(codeMap), force, env) == PassState(dom[..], codeMap)
    {
      if !mounted {
        return;
      }
      if force {
        RestoreMounts(dom, env);
      }
      if !stillMounted {
        return;
      }
      RenderPass(dom, force, env);
    }

    /** The restore loop of a forced `initFlowchart`: every svg mount whose container has a
        cached code turns back into a `pre` holding that code; the cache is left as it is. */
    method RestoreMounts(dom: array<Container>, env: PassEnv)
      modifies dom
      ensures dom[..] == RestoreAll(old(dom[..]), codeMap, env)
    {
      ghost var restored := RestoreAll(dom[..], codeMap, env);
      var i := 0;
      while i < dom.Length
        invariant 0 <= i <= dom.Length
        invariant forall j :: 0 <= j < i ==> dom[j] == restored[j]
        invariant forall j :: i <= j < dom.Length ==> dom[j] == old(dom[j])
      {
        dom[i] := Restore(dom[i], Lookup(codeMap, env.containerKeys(i)), env.restoreIds(i), env.htmlText);
        i := i + 1;
      }
      assert dom[..] == restored;
    }

    /** `rerenderFlowchart`: a forced pass, while the content element stays mounted. */
    method RerenderFlowchart(dom: array<Container>, env: PassEnv, mounted: bool, stillMounted: bool)
      requires DistinctKeys(env, dom.Length)
      modifies this, dom
      ensures !mounted ==> unchanged(this) && dom[..] == old(dom[..])
      ensures mounted && !stillMounted ==> codeMap == old(codeMap)
      ensures mounted && !stillMounted ==> dom[..] == RestoreAll(old(dom[..]), old(codeMap), env)
      ensures mounted && stillMounted ==>
                Pass(old(dom[..]), old(codeMap), true, env) == PassState(dom[..], codeMap)
    {
      InitFlowchart(dom, true, env, mounted, stillMounted);
    }
  }
}
