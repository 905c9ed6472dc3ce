/** Selection of the text handed to `JSON.parse` from the scorer's reply:
    first a fenced block found by `/```json?\s*([\s\S]*?)\s*```/`, then the
    span found by `/\{[\s\S]*\}/`, else the whole reply.
 */
module ResponseSpan {
  import opened Outcomes
  import opened Text

  /** The fixed part of the opening fence; the final `n` of `json` is optional. */
  const FenceOpen := "```jso"
  const Fence := "```"

  /** JavaScript's `\s`: the ECMAScript white space and line terminator characters. */
  predicate IsJsSpace(c: char) {
    || c == '\t' || c == '\n' || c == '\U{0B}' || c == '\U{0C}' || c == '\r' || c == ' '
    || c == '\U{A0}' || c == '\U{1680}' || ('\U{2000}' <= c <= '\U{200A}')
    || c == '\U{2028}' || c == '\U{2029}' || c == '\U{202F}' || c == '\U{205F}'
    || c == '\U{3000}' || c == '\U{FEFF}'
  }

  /** End of the greedy `\s*` starting at `i`. */
  function WsEnd(s: string, i: nat): (r: nat)
    requires i <= |s|
    ensures i <= r <= |s|
  {
    RunEnd(s, i, IsJsSpace)
  }

  /** A match of a pattern: `[start, end)` is the whole match and `group`,
      when present, the bounds of capture group 1. */
  datatype Match = Match(start: nat, end: nat, group: Option<(nat, nat)>)

  predicate WellFormed(s: string, m: Match) {
    && m.start <= m.end <= |s|
    && (m.group.Some? ==> m.start <= m.group.value.0 <= m.group.value.1 <= m.end)
  }

  /** `\s*```` can match at `e`: only white space separates `e` from a
      closing fence. */
  predicate ClosesAt(s: string, e: nat)
    requires e <= |s|
  {
    OccursAt(s, Fence, WsEnd(s, e))
  }

  /** The lazy `([\s\S]*?)` tries ends in increasing order and stops at the
      first from which `\s*```` matches. */
  function CaptureEnd(s: string, e: nat): (r: Option<nat>)
    requires e <= |s|
    ensures r.Some? ==> e <= r.value <= |s| && ClosesAt(s, r.value)
    ensures r.Some? ==> forall k :: e <= k < r.value ==> !ClosesAt(s, k)
    ensures r.None? ==> forall k :: e <= k <= |s| ==> !ClosesAt(s, k)
    decreases |s| - e
  {
    if ClosesAt(s, e) then Some(e)
    else if e == |s| then None
    else CaptureEnd(s, e + 1)
  }

  /** A closing fence never starts inside a white-space run, and no white
      space follows the position where it starts. */
  lemma FenceNotInWhiteSpace(s: string, p: nat, q: nat)
    requires p <= q && OccursAt(s, Fence, q)
    ensures WsEnd(s, p) <= q && WsEnd(s, q) == q
  {
    assert s[q] == s[q..q + |Fence|][0] == '`';
    assert !IsJsSpace(s[q]);
  }

  /** The rest of the fence pattern once `p` is past `json?`. The leading
      `\s*` keeps its longest run: giving back white space cannot help, since
      a closing fence never starts with white space. It matches exactly when
      a closing fence occurs at `p` or later. */
  function FenceBody(s: string, i: nat, p: nat): (r: Option<Match>)
    requires i <= p <= |s|
    ensures r.Some? <==> exists q: nat :: p <= q && OccursAt(s, Fence, q)
    ensures r.Some? ==> WellFormed(s, r.value) && r.value.start == i && r.value.group.Some?
    ensures r.Some? ==>
      && r.value.group.value.0 == WsEnd(s, p)
      && CaptureEnd(s, WsEnd(s, p)) == Some(r.value.group.value.1)
      && OccursAt(s, Fence, WsEnd(s, r.value.group.value.1))
      && r.value.end == WsEnd(s, r.value.group.value.1) + |Fence|
  {
    var c := WsEnd(s, p);
    forall q: nat | p <= q && OccursAt(s, Fence, q) ensures c <= q <= |s| && ClosesAt(s, q) {
      FenceNotInWhiteSpace(s, p, q);
    }
    match CaptureEnd(s, c)
    case None => None
    case Some(e) =>
      var q := WsEnd(s, e);
      assert p <= q && OccursAt(s, Fence, q);
      Some(Match(i, q + |Fence|, Some((c, e))))
  }

  /** The end of `json?` at an opening fence: the `n` is consumed whenever
      it is there. */
  function JsonEnd(s: string, i: nat): nat
    requires i + |FenceOpen| <= |s|
  {
    if i + |FenceOpen| < |s| && s[i + |FenceOpen|] == 'n' then i + |FenceOpen| + 1 else i + |FenceOpen|
  }

  /** The fence pattern can match at `i`: ```` ```jso ```` starts there and a
      closing ```` ``` ```` starts somewhere after it. */
  ghost predicate FencePattern(s: string, i: nat) {
    OccursAt(s, FenceOpen, i) && exists q: nat :: i + |FenceOpen| <= q && OccursAt(s, Fence, q)
  }

  /** A closing fence cannot start at an `n`. */
  lemma NoFenceAtN(s: string, h: nat)
    requires h < |s| && s[h] == 'n'
    ensures forall q: nat :: h <= q && OccursAt(s, Fence, q) ==> h + 1 <= q
  {
  }

  /** The fence pattern anchored at `i`: with the optional `n` taken first,
      then without it. It matches exactly when the declarative pattern does,
      and then as if the `n` were always taken when present. */
  function FenceMatchAt(s: string, i: nat): (r: Option<Match>)
    requires i <= |s|
    ensures r.Some? <==> FencePattern(s, i)
    ensures r.Some? ==> WellFormed(s, r.value) && r.value.start == i && r.value.group.Some?
    ensures r.Some? ==> OccursAt(s, FenceOpen, i) && r == FenceBody(s, i, JsonEnd(s, i))
  {
    if !OccursAt(s, FenceOpen, i) then None
    else
      var h := i + |FenceOpen|;
      var withN := if h < |s| && s[h] == 'n' then FenceBody(s, i, h + 1) else None;
      if withN.Some? then withN
      else
        if h < |s| && s[h] == 'n' then
          NoFenceAtN(s, h);
          FenceBody(s, i, h)
        else
          FenceBody(s, i, h)
  }

  /** Leftmost fence match at index `from` or later. */
  function FirstFenceMatch(s: string, from: nat): (r: Option<Match>)
    requires from <= |s|
    ensures r.Some? ==> WellFormed(s, r.value) && from <= r.value.start && r.value.group.Some?
    ensures r.Some? ==> OccursAt(s, FenceOpen, r.value.start) && FenceMatchAt(s, r.value.start) == r
    ensures r.Some? ==> forall j :: from <= j < r.value.start ==> FenceMatchAt(s, j).None?
    ensures r.None? ==> forall j :: from <= j <= |s| ==> FenceMatchAt(s, j).None?
    decreases |s| - from
  {
    match FenceMatchAt(s, from)
    case Some(m) => Some(m)
    case None => if from == |s| then None else FirstFenceMatch(s, from + 1)
  }

  /** The fence pattern matches somewhere exactly when some opening
      ```` ```jso ```` has a closing ```` ``` ```` after it. */
  lemma FenceMatchExists(s: string)
    ensures FirstFenceMatch(s, 0).Some? <==> exists j: nat :: FencePattern(s, j)
  {
    if FirstFenceMatch(s, 0).None? {
      forall j: nat ensures !FencePattern(s, j) {
        if j <= |s| {
          assert FenceMatchAt(s, j).None?;
        }
      }
    }
  }

  /** Without an opening ```` ```jso ```` there is no fence match; a bare
      ```` ``` ```` fence does not count. */
  lemma {:induction false} NoOpenNoFence(s: string, from: nat)
    requires from <= |s|
    requires forall j :: from <= j ==> !OccursAt(s, FenceOpen, j)
    ensures FirstFenceMatch(s, from).None?
    decreases |s| - from
  {
    if from < |s| {
      NoOpenNoFence(s, from + 1);
    }
  }

  /** Index of the last occurrence of `c` in `s[..n]`. */
  function LastIndexOf(s: string, c: char, n: nat): (r: Option<nat>)
    requires n <= |s|
    ensures r.Some? ==> r.value < n && s[r.value] == c && forall k :: r.value < k < n ==> s[k] != c
    ensures r.None? ==> forall k :: 0 <= k < n ==> s[k] != c
  {
    if n == 0 then None
    else if s[n - 1] == c then Some(n - 1)
    else LastIndexOf(s, c, n - 1)
  }

  /** `\{[\s\S]*\}` anchored at `i`: the greedy middle backs off to the last `}`. */
  function BraceMatchAt(s: string, i: nat): (r: Option<Match>)
    requires i < |s|
    ensures r.Some? ==> WellFormed(s, r.value) && r.value.start == i && r.value.group.None?
    ensures r.Some? ==> r.value.start + 1 < r.value.end
  {
    if s[i] != '{' then None
    else match LastIndexOf(s, '}', |s|)
      case Some(j) => if j > i then Some(Match(i, j + 1, None)) else None
      case None => None
  }

  /** Leftmost brace match at index `from` or later. */
  function FirstBraceMatch(s: string, from: nat): (r: Option<Match>)
    requires from <= |s|
    ensures r.Some? ==> WellFormed(s, r.value) && from <= r.value.start && r.value.group.None?
    ensures r.Some? ==> r.value.start + 1 < r.value.end
    decreases |s| - from
  {
    if from == |s| then None
    else match BraceMatchAt(s, from)
      case Some(m) => Some(m)
      case None => FirstBraceMatch(s, from + 1)
  }

  /** The brace match runs from the first `{` to the last `}`, and exists
      exactly when some `{` comes before some `}`. */
  lemma {:induction false} BraceSpan(s: string, from: nat)
    requires from <= |s|
    ensures FirstBraceMatch(s, from).Some? <==>
      exists a, b :: from <= a < b < |s| && s[a] == '{' && s[b] == '}'
    ensures FirstBraceMatch(s, from).Some? ==>
      var m := FirstBraceMatch(s, from).value;
      && s[m.start] == '{' && (forall k :: from <= k < m.start ==> s[k] != '{')
      && s[m.end - 1] == '}' && (forall k :: m.end <= k < |s| ==> s[k] != '}')
    decreases |s| - from
  {
    if from < |s| {
      BraceSpan(s, from + 1);
      if s[from] == '{' {
        var last := LastIndexOf(s, '}', |s|);
        if last.Some? && last.value <= from {
          forall a, b | from <= a < b < |s| && s[a] == '{' ensures s[b] != '}' {
          }
        }
      }
    }
  }

  /** `jsonMatch ? (jsonMatch[1] || jsonMatch[0]) : content`. */
  function SelectSpan(content: string): (span: string)
    ensures exists k: nat :: OccursAt(content, span, k)
    ensures FirstFenceMatch(content, 0).None? && FirstBraceMatch(content, 0).None? ==> span == content
  {
    match FirstFenceMatch(content, 0)
    case Some(m) =>
      var g := content[m.group.value.0..m.group.value.1];
      if g != "" then
        assert OccursAt(content, g, m.group.value.0);
        g
      else
        assert OccursAt(content, content[m.start..m.end], m.start);
        content[m.start..m.end]
    case None =>
      match FirstBraceMatch(content, 0)
      case Some(m) =>
        assert OccursAt(content, content[m.start..m.end], m.start);
        content[m.start..m.end]
      case None =>
        assert OccursAt(content, content, 0);
        content
  }

  /** The reply shape the system prompt asks the scorer to avoid but which
      the parser tolerates: a JSON object wrapped in a ```` ```json ```` fence. */
  function Fenced(body: string): string {
    "```json\n" + body + "\n```"
  }

  /** A JSON object text that contains no fence of its own. */
  predicate PlainObject(body: string) {
    && |body| >= 2 && body[0] == '{' && body[|body| - 1] == '}'
    && forall k :: 0 <= k < |body| ==> !OccursAt(body, Fence, k)
  }

  /** Where the body starts in a fenced block placed at `o`: after the
      opening ```` ```json ```` and its line feed. */
  function BodyStart(o: nat): nat {
    o + |FenceOpen| + 2
  }

  /** `s` holds `Fenced(body)` at offset `o`, described character by character. */
  predicate FenceAt(s: string, o: nat, body: string) {
    var b, n := BodyStart(o), |body|;
    && b + n + 1 + |Fence| <= |s|
    && s[o..o + |FenceOpen|] == FenceOpen && s[o + |FenceOpen|] == 'n' && s[o + |FenceOpen| + 1] == '\n'
    && s[b..b + n] == body
    && s[b + n] == '\n' && s[b + n + 1..b + n + 1 + |Fence|] == Fence
  }

  /** A fenced block on its own is laid out as `FenceAt` describes. */
  lemma FencedShape(body: string)
    ensures FenceAt(Fenced(body), 0, body)
  {
    var f, n := Fenced(body), |body|;
    assert f == "```json\n" + body + "\n```";
    assert f[..|FenceOpen|] == FenceOpen;
    assert f[BodyStart(0)..BodyStart(0) + n] == body;
    assert f[BodyStart(0) + n + 1..] == Fence;
  }

  /** A layout survives text placed before and after it. */
  lemma FenceAtShift(before: string, f: string, after: string, body: string)
    requires FenceAt(f, 0, body)
    ensures FenceAt(before + f + after, |before|, body)
  {
    var s := before + f + after;
    var o, n, h := |before|, |body|, BodyStart(0);
    assert s[o..o + |f|] == f;
    assert s[o + h..o + h + n] == f[h..h + n];
    assert s[o..o + |FenceOpen|] == f[..|FenceOpen|];
    assert s[o + h + n + 1..o + h + n + 1 + |Fence|] == f[h + n + 1..h + n + 1 + |Fence|];
  }

  /** Placing a fenced body between two texts puts the fence right after the first. */
  lemma FenceAtLayout(before: string, body: string, after: string)
    ensures FenceAt(before + Fenced(body) + after, |before|, body)
  {
    FencedShape(body);
    FenceAtShift(before, Fenced(body), after, body);
  }

  /** Inside the fenced body, no closing fence can follow the white space. */
  lemma NoCloseInsideBody(s: string, o: nat, body: string, k: nat)
    requires PlainObject(body) && FenceAt(s, o, body)
    requires BodyStart(o) <= k < BodyStart(o) + |body|
    ensures !ClosesAt(s, k)
  {
    var b, n := BodyStart(o), |body|;
    assert forall j :: 0 <= j < n ==> s[b + j] == body[j];
    var q := WsEnd(s, k);
    assert !IsJsSpace(s[b + n - 1]);
    assert q <= b + n - 1;
    if q + |Fence| <= b + n {
      var j := q - b;
      assert !OccursAt(body, Fence, j);
      assert s[q..q + |Fence|] == body[j..j + |Fence|];
    } else {
      assert q + |Fence| <= |s| ==> s[q..q + |Fence|][b + n - q] == '\n';
    }
  }

  /** The opening of the fence: ```` ```jso ````, then `n`, then one line
      feed, white space that ends where the body starts. */
  lemma FencedOpening(s: string, o: nat, body: string)
    requires PlainObject(body) && FenceAt(s, o, body)
    ensures OccursAt(s, FenceOpen, o) && JsonEnd(s, o) == BodyStart(o) - 1
    ensures WsEnd(s, BodyStart(o) - 1) == BodyStart(o)
  {
    var b := BodyStart(o);
    assert s[b] == body[0] == '{';
    RunEndUnique(s, b - 1, b, IsJsSpace);
  }

  /** The closing of the fence: a line feed right after the object, then ```` ``` ````. */
  lemma FencedClosing(s: string, o: nat, body: string)
    requires FenceAt(s, o, body)
    ensures OccursAt(s, Fence, BodyStart(o) + |body| + 1)
    ensures WsEnd(s, BodyStart(o) + |body|) == BodyStart(o) + |body| + 1
  {
    var e := BodyStart(o) + |body|;
    assert s[e + 1] == s[e + 1..e + 1 + |Fence|][0] == '`';
    RunEndUnique(s, e, e + 1, IsJsSpace);
  }

  /** The lazy capture from `e` ends at the first closing position `r`. */
  lemma CaptureEndAt(s: string, e: nat, r: nat)
    requires e <= r <= |s| && ClosesAt(s, r)
    requires forall k :: e <= k < r ==> !ClosesAt(s, k)
    ensures CaptureEnd(s, e) == Some(r)
  {
    var c := CaptureEnd(s, e);
    assert c.Some? ==> c.value == r;
  }

  /** The fence around a plain object matches where it starts, and it
      captures exactly the object, whatever text follows. */
  lemma FencedCapture(s: string, o: nat, body: string)
    requires PlainObject(body) && FenceAt(s, o, body)
    ensures FenceMatchAt(s, o).Some?
    ensures FenceMatchAt(s, o).value.start == o
    ensures FenceMatchAt(s, o).value.group == Some((BodyStart(o), BodyStart(o) + |body|))
  {
    var b, n := BodyStart(o), |body|;
    FencedOpening(s, o, body);
    FencedClosing(s, o, body);
    assert FencePattern(s, o);
    forall k | b <= k < b + n ensures !ClosesAt(s, k) {
      NoCloseInsideBody(s, o, body, k);
    }
    CaptureEndAt(s, b, b + n);
  }

  /** Positions where no opening fence starts are skipped by the leftmost search. */
  lemma {:induction false} SkipToFence(s: string, from: nat, to: nat)
    requires from <= to <= |s|
    requires forall j :: from <= j < to ==> !OccursAt(s, FenceOpen, j)
    ensures FirstFenceMatch(s, from) == FirstFenceMatch(s, to)
    decreases |s| - from
  {
    if from < to {
      SkipToFence(s, from + 1, to);
    }
  }

  /** When the fence pattern matches, the span is its capture, or the whole
      match when the capture is empty. */
  lemma FenceSpan(content: string, m: Match)
    requires FirstFenceMatch(content, 0) == Some(m)
    ensures m.group.Some? && m.start <= m.group.value.0 <= m.group.value.1 <= m.end <= |content|
    ensures SelectSpan(content) == if m.group.value.0 < m.group.value.1
      then content[m.group.value.0..m.group.value.1] else content[m.start..m.end]
  {
  }

  /** A fence around a plain object with no opening fence before it
      decides the span: the span is the object. */
  lemma FenceAtSpan(s: string, o: nat, body: string)
    requires PlainObject(body) && FenceAt(s, o, body)
    requires forall j :: 0 <= j < o ==> !OccursAt(s, FenceOpen, j)
    ensures SelectSpan(s) == body
  {
    var b := BodyStart(o);
    SkipToFence(s, 0, o);
    FencedCapture(s, o, body);
    var m := FenceMatchAt(s, o).value;
    assert FirstFenceMatch(s, o) == Some(m);
    FenceSpan(s, m);
    assert s[b..b + |body|] == body;
  }

  /** A fenced object wins over any braces around it: with no backtick
      before the fence, the span is the object whatever surrounds it. */
  lemma FencedSpan(before: string, body: string, after: string)
    requires PlainObject(body)
    requires '`' !in before
    ensures SelectSpan(before + Fenced(body) + after) == body
  {
    var s := before + Fenced(body) + after;
    var o := |before|;
    FenceAtLayout(before, body, after);
    forall j | 0 <= j < o ensures !OccursAt(s, FenceOpen, j) {
      assert s[j] == before[j];
    }
    FenceAtSpan(s, o, body);
  }

  /** A plain object on its own is selected whole by the brace pattern. */
  lemma BareSpan(body: string)
    requires PlainObject(body)
    ensures SelectSpan(body) == body
  {
    var n := |body|;
    forall j | 0 <= j
      ensures !OccursAt(body, FenceOpen, j)
    {
      if j + |FenceOpen| <= |body| {
        assert body[j..j + |Fence|] == body[j..j + |FenceOpen|][..|Fence|];
        assert !OccursAt(body, Fence, j);
      }
    }
    NoOpenNoFence(body, 0);
    BraceSpan(body, 0);
    assert 0 < n - 1 && body[0] == '{' && body[n - 1] == '}';
    var m := FirstBraceMatch(body, 0).value;
    assert m.start == 0;
    assert m.end == n;
  }

  /** Parser round trip: a fenced object and the bare object select the same
      text, the object itself. */
  lemma FencedRoundTrip(body: string)
    requires PlainObject(body)
    ensures SelectSpan(Fenced(body)) == body
    ensures SelectSpan(body) == body
  {
    FencedShape(body);
    FenceAtSpan(Fenced(body), 0, body);
    BareSpan(body);
  }

  /** The first opening fence decides the span whenever a closing fence
      follows it, whatever braces occur: the lazy capture after `json?` and
      the white space, or the whole fenced match when that capture is empty. */
  lemma FenceDecides(content: string, j: nat)
    requires OccursAt(content, FenceOpen, j)
    requires forall k :: 0 <= k < j ==> !OccursAt(content, FenceOpen, k)
    requires exists q: nat :: j + |FenceOpen| <= q && OccursAt(content, Fence, q)
    ensures CaptureEnd(content, WsEnd(content, JsonEnd(content, j))).Some?
    ensures var c := WsEnd(content, JsonEnd(content, j));
      var e := CaptureEnd(content, c).value;
      SelectSpan(content) == if c < e then content[c..e] else content[j..WsEnd(content, e) + |Fence|]
  {
    SkipToFence(content, 0, j);
    assert FencePattern(content, j);
    var m := FenceMatchAt(content, j).value;
    assert FirstFenceMatch(content, 0) == Some(m);
    FenceSpan(content, m);
    var c := WsEnd(content, JsonEnd(content, j));
    assert m.group.value.0 == c && CaptureEnd(content, c) == Some(m.group.value.1);
    assert m.start == j && m.end == WsEnd(content, m.group.value.1) + |Fence|;
  }

  /** Without a fence match, in particular with an opening ```` ```jso ````
      that is never closed, the span runs from the first `{` to the last `}`
      when one precedes the other, and is the whole reply otherwise. */
  lemma BraceFallback(content: string)
    requires forall j: nat :: !FencePattern(content, j)
    ensures (exists a, b :: 0 <= a < b < |content| && content[a] == '{' && content[b] == '}') ==>
      exists a, b ::
        && 0 <= a < b < |content| && SelectSpan(content) == content[a..b + 1]
        && content[a] == '{' && (forall k :: 0 <= k < a ==> content[k] != '{')
        && content[b] == '}' && (forall k :: b < k < |content| ==> content[k] != '}')
    ensures (forall a, b :: 0 <= a < b < |content| && content[a] == '{' ==> content[b] != '}') ==>
      SelectSpan(content) == content
  {
    FenceMatchExists(content);
    BraceSpan(content, 0);
    if FirstBraceMatch(content, 0).Some? {
      var m := FirstBraceMatch(content, 0).value;
      assert SelectSpan(content) == content[m.start..(m.end - 1) + 1];
    }
  }

  /** An empty fenced block wins over any object after it, and its empty
      capture makes `jsonMatch[1] || jsonMatch[0]` fall back to the whole
      fence, which is not JSON. */
  lemma EmptyFenceShadowsObject(after: string)
    ensures SelectSpan("```json```" + after) == "```json```"
  {
    var s := "```json```" + after;
    assert OccursAt(s, FenceOpen, 0);
    assert s[7] == '`' && !IsJsSpace(s[7]);
    assert WsEnd(s, 7) == 7;
    assert OccursAt(s, Fence, 7);
    assert CaptureEnd(s, 7) == Some(7);
    assert FenceMatchAt(s, 0) == Some(Match(0, 10, Some((7, 7))));
    assert s[0..10] == "```json```";
  }
}
