/**
 * The inline product search of the navigation bar (src/components/navbar-search.tsx):
 * the client-side token filter over the server's answer, the eight-result cap, keyboard
 * navigation through the results, the tokens the highlighter marks, and the "see all"
 * link to the home page.
 */
module NavbarSearch {
  import opened Wrappers
  import opened Json
  import opened Text
  import opened QtySelector
  import Urls
  import Percent

  /** The most results the dropdown shows. */
  const MaxResults := 8

  // ----------------------------------------------------------------- filter

  /** `q.trim().toLowerCase().split(/\s+/).filter(Boolean)` */
  function Tokens(q: string): (ts: seq<string>)
    ensures forall i :: 0 <= i < |ts| ==> |ts[i]| > 0 && NoSpace(ts[i])
  {
    WordsAreRuns(Lower(Trim(q)));
    Words(Lower(Trim(q)))
  }

  /**
   * The tokens are the query's words, lower-cased: words written out with spaces give
   * back exactly those words, in order, each in lower case.
   */
  lemma TokensOfUnwords(ws: seq<string>)
    requires forall i :: 0 <= i < |ws| ==> ws[i] != [] && NoSpace(ws[i])
    ensures Tokens(Unwords(ws)) == seq(|ws|, i requires 0 <= i < |ws| => Lower(ws[i]))
  {
    var ls := seq(|ws|, i requires 0 <= i < |ws| => Lower(ws[i]));
    var u := Unwords(ws);
    UnwordsIsTrimmed(ws);
    LowerUnwords(ws);
    TokensOfTrimmed(u, Unwords(ls));
    LowerWordsStayWords(ws, ls);
    WordsOfUnwords(ls);
  }

  lemma TokensOfTrimmed(u: string, l: string)
    requires Trim(u) == u && Lower(u) == l
    ensures Tokens(u) == Words(l)
  {
  }

  lemma UnwordsIsTrimmed(ws: seq<string>)
    requires forall i :: 0 <= i < |ws| ==> ws[i] != [] && NoSpace(ws[i])
    ensures Trim(Unwords(ws)) == Unwords(ws)
  {
    if ws != [] {
      UnwordsTrimmed(ws);
    }
  }

  lemma LowerWordsStayWords(ws: seq<string>, ls: seq<string>)
    requires forall i :: 0 <= i < |ws| ==> ws[i] != [] && NoSpace(ws[i])
    requires |ls| == |ws| && forall i :: 0 <= i < |ws| ==> ls[i] == Lower(ws[i])
    ensures forall i :: 0 <= i < |ls| ==> ls[i] != [] && NoSpace(ls[i])
  {
    forall i | 0 <= i < |ls| ensures ls[i] != [] && NoSpace(ls[i]) {
      assert forall k :: 0 <= k < |ls[i]| ==> ls[i][k] == LowerChar(ws[i][k]);
    }
  }

  /** `String(p?.name || "").toLowerCase()` */
  function NameOf(p: Json): string {
    var name := Member(p, "name");
    Lower(if OptTruthy(name) then ToJsString(name.value) else "")
  }

  /** The product's lowercased name contains every token. */
  predicate Matches(p: Json, tokens: seq<string>) {
    forall t :: t in tokens ==> Contains(NameOf(p), t)
  }

  /** `list.filter(...)`: the matching products, in server order. */
  function Filter(list: seq<Json>, tokens: seq<string>): (r: seq<Json>)
    ensures |r| <= |list|
  {
    if list == [] then [] else Kept(list[0], tokens) + Filter(list[1..], tokens)
  }

  /** What the filter keeps of one product: itself when it matches, nothing otherwise. */
  function Kept(p: Json, tokens: seq<string>): (r: seq<Json>)
    ensures |r| <= 1
  {
    if Matches(p, tokens) then [p] else []
  }

  lemma FilterCons(p: Json, rest: seq<Json>, tokens: seq<string>)
    ensures Filter([p] + rest, tokens) == Kept(p, tokens) + Filter(rest, tokens)
  {
    assert ([p] + rest)[1..] == rest;
  }

  lemma JoinAssoc(h: seq<Json>, x: seq<Json>, y: seq<Json>)
    ensures h + (x + y) == (h + x) + y
  {
  }

  /** A product survives the filter exactly when it was in the list and matches every token. */
  lemma {:induction false} FilterMembers(list: seq<Json>, tokens: seq<string>, p: Json)
    ensures p in Filter(list, tokens) <==> p in list && Matches(p, tokens)
    decreases |list|
  {
    if list != [] {
      FilterMembers(list[1..], tokens, p);
      assert p in list <==> p == list[0] || p in list[1..];
    }
  }

  /** Filtering works element by element, so it keeps the server's order. */
  lemma {:induction false} FilterAppend(a: seq<Json>, b: seq<Json>, tokens: seq<string>)
    ensures Filter(a + b, tokens) == Filter(a, tokens) + Filter(b, tokens)
    decreases |a|
  {
    if a == [] {
      assert a + b == b;
    } else {
      var head := Kept(a[0], tokens);
      assert a + b == [a[0]] + (a[1..] + b);
      FilterCons(a[0], a[1..] + b, tokens);
      FilterAppend(a[1..], b, tokens);
      FilterCons(a[0], a[1..], tokens);
      assert a == [a[0]] + a[1..];
      JoinAssoc(head, Filter(a[1..], tokens), Filter(b, tokens));
    }
  }

  /** With no tokens every product is kept, so `tokens.length ? filter : list` is one case. */
  lemma {:induction false} FilterNoTokens(list: seq<Json>)
    ensures Filter(list, []) == list
    decreases |list|
  {
    if list != [] {
      FilterNoTokens(list[1..]);
      assert list == [list[0]] + list[1..];
    }
  }

  /**
   * The results for a server answer: the products of an array answer (nothing for any
   * other answer) that match every token, the first eight of them.
   */
  function SearchResults(data: Json, debounced: string): (r: seq<Json>)
    ensures |r| <= MaxResults
  {
    var list := if data.JArr? then data.elems else [];
    var tokens := Tokens(debounced);
    var filtered := if |tokens| > 0 then Filter(list, tokens) else list;
    filtered[..Min(MaxResults, |filtered|)]
  }

  /** The results are the first eight (or fewer) of the filtered answer, in order. */
  lemma SearchResultsPrefix(data: Json, debounced: string)
    ensures var list := if data.JArr? then data.elems else [];
      var f := Filter(list, Tokens(debounced));
      var r := SearchResults(data, debounced);
      |r| == Min(MaxResults, |f|) && r == f[..|r|]
  {
    var list := if data.JArr? then data.elems else [];
    FilterNoTokens(list);
  }

  /**
   * What the answer to the request for `sent` puts on show, computed in the request's
   * callback: the search results of a JSON answer, `None` when the request or its JSON
   * failed.
   */
  function ReplyShown(sent: string, reply: Option<Json>): (r: Option<seq<Json>>)
    ensures r.Some? <==> reply.Some?
    ensures r.Some? ==> |r.value| <= MaxResults
  {
    if reply.Some? then Some(SearchResults(reply.value, sent)) else None
  }

  /** Every product shown came in the answer and matches every word of the query. */
  lemma ResultsMatch(data: Json, debounced: string, p: Json)
    requires p in SearchResults(data, debounced)
    ensures data.JArr? && p in data.elems && Matches(p, Tokens(debounced))
  {
    var list := if data.JArr? then data.elems else [];
    var f := Filter(list, Tokens(debounced));
    SearchResultsPrefix(data, debounced);
    assert p in f;
    FilterMembers(list, Tokens(debounced), p);
  }

  /** A blank (but non-empty) query keeps the first eight products of the answer. */
  lemma BlankQueryKeepsAnswer(data: Json, debounced: string)
    requires data.JArr? && AllSpace(debounced)
    ensures SearchResults(data, debounced) == data.elems[..Min(MaxResults, |data.elems|)]
  {
    assert AllSpace(Lower(Trim(debounced))) by {
      assert Trim(debounced) == [];
    }
    WordsEmptyIffBlank(Lower(Trim(debounced)));
    FilterNoTokens(data.elems);
  }

  /** When fewer than eight products match, every matching product is shown. */
  lemma FewMatchesAllShown(data: Json, debounced: string, p: Json)
    requires data.JArr? && p in data.elems && Matches(p, Tokens(debounced))
    requires |Filter(data.elems, Tokens(debounced))| <= MaxResults
    ensures p in SearchResults(data, debounced)
  {
    ShortFilterShownWhole(data, debounced);
    FilterMembers(data.elems, Tokens(debounced), p);
  }

  lemma ShortFilterShownWhole(data: Json, debounced: string)
    requires data.JArr? && |Filter(data.elems, Tokens(debounced))| <= MaxResults
    ensures SearchResults(data, debounced) == Filter(data.elems, Tokens(debounced))
  {
    var f := Filter(data.elems, Tokens(debounced));
    var r := SearchResults(data, debounced);
    SearchResultsPrefix(data, debounced);
    assert |r| == |f|;
    assert r == f[..|f|] == f;
  }

  // ------------------------------------------------------------- keyboard

  datatype Key = ArrowDown | ArrowUp | Enter | Escape | OtherKey

  /** `Math.min(i + 1, results.length - 1)` */
  function Down(i: int, count: nat): (r: int)
    ensures i < count - 1 ==> r == i + 1
    ensures i >= count - 1 ==> r == count - 1
  {
    Min(i + 1, count - 1)
  }

  /** `Math.max(i - 1, 0)` */
  function Up(i: int): (r: int)
    ensures i > 0 ==> r == i - 1
    ensures i <= 0 ==> r == 0
  {
    Max(i - 1, 0)
  }

  /**
   * Moving down from "nothing selected" or from a result stays on the list (or at -1 for
   * an empty list); moving up from a result stays on it, but moving up with nothing
   * selected selects index 0 even when there are no results.
   */
  lemma KeysStayInRange(i: int, count: nat)
    requires -1 <= i < count || (count == 0 && i == -1)
    ensures -1 <= Down(i, count) < count || (count == 0 && Down(i, count) == -1)
    ensures 0 <= i < count ==> 0 <= Up(i) < count
    ensures Up(-1) == 0
  {
  }

  /** `/product/${p.id}` */
  function ProductPath(p: Json): string {
    "/product/" + OptToJsString(Member(p, "id"))
  }

  /** Enter opens the selected product, and only a selected, existing, truthy one. */
  function EnterTarget(results: seq<Json>, activeIndex: int): (nav: Option<string>)
    ensures nav.Some? <==> 0 <= activeIndex < |results| && Truthy(results[activeIndex])
    ensures nav.Some? ==> nav.value == ProductPath(results[activeIndex])
  {
    if 0 <= activeIndex < |results| && Truthy(results[activeIndex])
    then Some(ProductPath(results[activeIndex]))
    else None
  }

  /** Arrow-up on an empty list selects index 0, but Enter then opens nothing. */
  lemma UpOnEmptyIsHarmless(i: int)
    requires i <= 0
    ensures EnterTarget([], Up(i)).None?
  {
  }

  // ------------------------------------------------------------- highlight

  /** The characters `/[.*+?^${}()|[\]\\]/g` escapes. */
  predicate Special(c: char) {
    c == '.' || c == '*' || c == '+' || c == '?' || c == '^' || c == '$' || c == '{' || c == '}'
    || c == '(' || c == ')' || c == '|' || c == '[' || c == ']' || c == '\\'
  }

  /** `t.replace(/[.*+?^${}()|[\]\\]/g, "\\$&")`: a backslash before every special character. */
  function EscapeRegex(t: string): (r: string)
    ensures |r| >= |t|
    ensures (forall i :: 0 <= i < |t| ==> !Special(t[i])) ==> r == t
  {
    if t == [] then []
    else (if Special(t[0]) then ['\\', t[0]] else [t[0]]) + EscapeRegex(t[1..])
  }

  /** Reading an escaped pattern back: a backslash makes the next character literal. */
  function UnescapeRegex(r: string): string
    decreases |r|
  {
    if r == [] then []
    else if r[0] == '\\' && |r| >= 2 then [r[1]] + UnescapeRegex(r[2..])
    else [r[0]] + UnescapeRegex(r[1..])
  }

  /** Escaping loses nothing: every token matches literally. */
  lemma {:induction false} UnescapeEscape(t: string)
    ensures UnescapeRegex(EscapeRegex(t)) == t
    decreases |t|
  {
    if t != [] {
      var rest := EscapeRegex(t[1..]);
      UnescapeEscape(t[1..]);
      if Special(t[0]) {
        var r := ['\\', t[0]] + rest;
        assert r[0] == '\\' && r[1] == t[0] && r[2..] == rest;
      } else {
        var r := [t[0]] + rest;
        assert t[0] != '\\';
        assert r[0] == t[0] && r[1..] == rest;
      }
      assert t == [t[0]] + t[1..];
    }
  }

  /** `.filter(t => t.length >= 2)` */
  function LongOnly(ts: seq<string>): (r: seq<string>)
    ensures |r| <= |ts|
    ensures forall i :: 0 <= i < |r| ==> |r[i]| >= 2
    ensures forall t :: t in r <==> t in ts && |t| >= 2
  {
    if ts == [] then []
    else
      assert forall t :: t in ts <==> t == ts[0] || t in ts[1..];
      (if |ts[0]| >= 2 then [ts[0]] else []) + LongOnly(ts[1..])
  }

  function EscapeAll(ws: seq<string>): (r: seq<string>)
    ensures |r| == |ws|
    ensures forall i :: 0 <= i < |ws| ==> r[i] == EscapeRegex(ws[i])
  {
    seq(|ws|, i requires 0 <= i < |ws| => EscapeRegex(ws[i]))
  }

  /**
   * The patterns `renderHighlighted` builds its expression from: the query's words,
   * escaped, of escaped length two or more. `None` means the name is shown as it is:
   * highlighting is off, the query is empty, or no pattern is left.
   */
  function HighlightTokens(prefHighlight: bool, q: string): (r: Option<seq<string>>)
    ensures r.Some? ==> prefHighlight && q != [] && r.value != []
    ensures r.Some? ==> forall i :: 0 <= i < |r.value| ==> |r.value[i]| >= 2
    ensures r.None? <==> !prefHighlight || q == [] || LongOnly(EscapeAll(Words(Trim(q)))) == []
    ensures r.Some? ==> var ws := Words(Trim(q));
      forall i :: 0 <= i < |ws| && |EscapeRegex(ws[i])| >= 2 ==> EscapeRegex(ws[i]) in r.value
  {
    if !prefHighlight || q == [] then None
    else
      var ts := LongOnly(EscapeAll(Words(Trim(q))));
      if ts == [] then None else Some(ts)
  }

  /** Every pattern, read back, is one of the words of the query: escaping loses nothing. */
  lemma HighlightPatternsAreWords(prefHighlight: bool, q: string, t: string)
    requires HighlightTokens(prefHighlight, q).Some? && t in HighlightTokens(prefHighlight, q).value
    ensures UnescapeRegex(t) in Words(Trim(q))
  {
    var ws := Words(Trim(q));
    var es := EscapeAll(ws);
    assert t in es;
    var i :| 0 <= i < |es| && es[i] == t;
    UnescapeEscape(ws[i]);
  }

  /**
   * The length test counts the escaped pattern, so a query of one special character is
   * highlighted although it is a single character.
   */
  lemma SpecialCharacterHighlighted(q: string)
    requires |q| == 1 && !IsSpace(q[0]) && Special(q[0])
    ensures HighlightTokens(true, q) == Some([['\\', q[0]]])
  {
    SingleCharacterPatterns(q);
    EscapeSingle(q);
  }

  /** A query of one ordinary character is not highlighted. */
  lemma OrdinaryCharacterNotHighlighted(q: string)
    requires |q| == 1 && !IsSpace(q[0]) && !Special(q[0])
    ensures HighlightTokens(true, q) == None
  {
    SingleCharacterPatterns(q);
    EscapeSingle(q);
  }

  /** The patterns of a one-character query: its escaped form, if that is long enough. */
  lemma SingleCharacterPatterns(q: string)
    requires |q| == 1 && !IsSpace(q[0])
    ensures HighlightTokens(true, q) == (if |EscapeRegex(q)| >= 2 then Some([EscapeRegex(q)]) else None)
  {
    assert Trim(q) == q;
    WordsOfWord(q);
    assert Words(Trim(q)) == [q];
    var ts := LongOnly(EscapeAll(Words(Trim(q))));
    var e := EscapeRegex(q);
    var es := EscapeAll([q]);
    assert ts == LongOnly(es);
    assert es == [e];
    assert es[1..] == [];
    assert LongOnly(es) == (if |e| >= 2 then [e] else []) + LongOnly([]);
    assert HighlightTokens(true, q) == (if ts == [] then None else Some(ts));
    assert ts == (if |e| >= 2 then [e] else []);
  }

  /** A one-character token escapes to two characters exactly when it is special. */
  lemma EscapeSingle(q: string)
    requires |q| == 1
    ensures Special(q[0]) ==> EscapeRegex(q) == ['\\', q[0]]
    ensures !Special(q[0]) ==> EscapeRegex(q) == q
  {
    assert q[1..] == [];
  }

  // --------------------------------------------------------------- see all

  function Flag(b: bool): string { if b then "1" else "0" }

  /** `String(query).trim() || String(debounced).trim()` */
  function SeeAllQuery(query: string, debounced: string): (q: string)
    ensures q == [] <==> AllSpace(query) && AllSpace(debounced)
    ensures !AllSpace(query) ==> q == Trim(query)
  {
    if Trim(query) != [] then Trim(query) else Trim(debounced)
  }

  /** One `name=value` pair of a query. */
  function Pair(name: string, value: string): string { name + "=" + value }

  /** The query part of the "see all" link: `q`, `icons` and `highlight`, in that order. */
  function SeeAllParams(q: string, icons: bool, highlight: bool): string {
    Pair("q", FormEncode(q)) + "&" + Pair("icons", Flag(icons)) + "&" + Pair("highlight", Flag(highlight))
  }

  /** "See all": no navigation when both queries are blank, else the home page with the parameters. */
  function SeeAllTarget(query: string, debounced: string, icons: bool, highlight: bool): (nav: Option<string>)
    ensures nav.None? <==> AllSpace(query) && AllSpace(debounced)
    ensures nav.Some? ==> nav.value == "/?" + SeeAllParams(SeeAllQuery(query, debounced), icons, highlight)
  {
    var q := SeeAllQuery(query, debounced);
    if q == [] then None else Some("/?" + SeeAllParams(q, icons, highlight))
  }

  /** Three pairs without `&` split back into those three pairs. */
  lemma SplitThree(p1: string, p2: string, p3: string)
    requires '&' !in p1 && '&' !in p2 && '&' !in p3
    ensures Urls.Split(p1 + "&" + p2 + "&" + p3, '&') == [p1, p2, p3]
  {
    var tail := p2 + ['&'] + p3;
    assert p1 + "&" + p2 + "&" + p3 == p1 + ['&'] + tail;
    Urls.SplitCons(p1, tail, '&');
    Urls.SplitCons(p2, p3, '&');
    Urls.SplitNone(p3, '&');
    assert Urls.Split(tail, '&') == [p2, p3];
    assert [p1] + [p2, p3] == [p1, p2, p3];
  }

  /** A query of three pairs with distinct names gives each value back under its name. */
  lemma ReadThree(k1: string, v1: string, k2: string, v2: string, k3: string, v3: string)
    requires '=' !in k1 && '=' !in k2 && '=' !in k3
    requires '+' !in k1 + k2 + k3 && '%' !in k1 + k2 + k3
    requires '&' !in k1 + v1 && '&' !in k2 + v2 && '&' !in k3 + v3
    requires k1 != k2 && k1 != k3 && k2 != k3
    ensures var query := Pair(k1, v1) + "&" + Pair(k2, v2) + "&" + Pair(k3, v3);
      Urls.QueryGet(query, k1) == Some(Percent.FormDecode(v1)) && Urls.QueryGet(query, k2) == Some(Percent.FormDecode(v2))
      && Urls.QueryGet(query, k3) == Some(Percent.FormDecode(v3))
  {
    var p1, p2, p3 := Pair(k1, v1), Pair(k2, v2), Pair(k3, v3);
    NoSeparatorInPair(k1, v1);
    NoSeparatorInPair(k2, v2);
    NoSeparatorInPair(k3, v3);
    SplitThree(p1, p2, p3);
    Urls.PairOf(k1, v1);
    Urls.PairOf(k2, v2);
    Urls.PairOf(k3, v3);
    assert forall i :: 0 <= i < |k1| ==> k1[i] in k1 + k2 + k3;
    assert forall i :: 0 <= i < |k2| ==> k2[i] in k1 + k2 + k3;
    assert forall i :: 0 <= i < |k3| ==> k3[i] in k1 + k2 + k3;
    Percent.FormDecodeOfPlain(k1);
    Percent.FormDecodeOfPlain(k2);
    Percent.FormDecodeOfPlain(k3);
    FirstValueStep(p3, [], k3);
    FirstValueStep(p2, [p3], k2);
    FirstValueStep(p2, [p3], k3);
    FirstValueStep(p1, [p2, p3], k1);
    FirstValueStep(p1, [p2, p3], k2);
    FirstValueStep(p1, [p2, p3], k3);
  }

  /** The first pair answers for its own name and passes every other name on. */
  lemma FirstValueStep(p: string, rest: seq<string>, key: string)
    ensures Percent.FormDecode(Urls.PairName(p)) == key ==>
      Urls.FirstValue([p] + rest, key) == Some(Percent.FormDecode(Urls.PairValue(p)))
    ensures Percent.FormDecode(Urls.PairName(p)) != key ==> Urls.FirstValue([p] + rest, key) == Urls.FirstValue(rest, key)
  {
    assert ([p] + rest)[1..] == rest;
  }

  lemma NoSeparatorInPair(k: string, v: string)
    requires '&' !in k + v
    ensures '&' !in Pair(k, v)
  {
    assert forall x :: x in Pair(k, v) ==> x in k + v || x == '=';
  }

  /** The home page reads back the query itself and both preference flags from the link. */
  lemma SeeAllParamsReadBack(q: string, icons: bool, highlight: bool)
    ensures Urls.QueryGet(SeeAllParams(q, icons, highlight), "q") == Some(q)
    ensures Urls.QueryGet(SeeAllParams(q, icons, highlight), "icons") == Some(Flag(icons))
    ensures Urls.QueryGet(SeeAllParams(q, icons, highlight), "highlight") == Some(Flag(highlight))
  {
    var e, f1, f2 := FormEncode(q), Flag(icons), Flag(highlight);
    var k1, k2, k3 := "q", "icons", "highlight";
    ParamNamesPlain(k1, k2, k3);
    FormEncodeNoSeparators(q);
    FlagPlain(icons);
    FlagPlain(highlight);
    NoAmpersandIn(k1, e);
    ReadThree(k1, e, k2, f1, k3, f2);
    Percent.FormDecodeOfFormEncode(q);
  }

  /** The three parameter names of the link are distinct and need no escaping. */
  lemma ParamNamesPlain(k1: string, k2: string, k3: string)
    requires k1 == "q" && k2 == "icons" && k3 == "highlight"
    ensures '=' !in k1 && '=' !in k2 && '=' !in k3
    ensures '+' !in k1 + k2 + k3 && '%' !in k1 + k2 + k3
    ensures '&' !in k2 && '&' !in k3
    ensures k1 != k2 && k1 != k3 && k2 != k3
  {
    assert k1 + k2 + k3 == "qiconshighlight";
  }

  lemma FlagPlain(b: bool)
    ensures '&' !in Flag(b) && Percent.FormDecode(Flag(b)) == Flag(b)
  {
    Percent.FormDecodeOfPlain(Flag(b));
  }

  lemma NoAmpersandIn(a: string, b: string)
    requires '&' !in a && '&' !in b
    ensures '&' !in a + b
  {
  }

  // ------------------------------------------------------------- component

  class SearchBox {
    var openInline: bool
    var query: string
    /** The query as it stood 250 ms ago. */
    var debounced: string
    var results: seq<Json>
    var isSearching: bool
    var activeIndex: int
    var prefShowIcons: bool
    var prefHighlight: bool

    predicate Valid()
      reads this
    {
      activeIndex >= -1 && |results| <= MaxResults
    }

    constructor()
      ensures Valid()
      ensures !openInline && query == "" && debounced == "" && results == [] && activeIndex == -1
      ensures !isSearching && prefShowIcons && prefHighlight
    {
      openInline := false;
      query := "";
      debounced := "";
      results := [];
      isSearching := false;
      activeIndex := -1;
      prefShowIcons := true;
      prefHighlight := true;
    }

    /** Closing, together with the effect that follows it: the query, the results and the selection are cleared. */
    method Close()
      requires Valid()
      modifies this
      ensures Valid()
      ensures !openInline && query == "" && results == [] && activeIndex == -1
      ensures debounced == old(debounced) && isSearching == old(isSearching)
      ensures prefShowIcons == old(prefShowIcons) && prefHighlight == old(prefHighlight)
    {
      openInline := false;
      query := "";
      results := [];
      activeIndex := -1;
    }

    /** The search trigger (a click, Enter or space). */
    method Open()
      requires Valid()
      modifies this
      ensures Valid() && openInline
      ensures query == old(query) && debounced == old(debounced) && results == old(results)
      ensures activeIndex == old(activeIndex) && isSearching == old(isSearching)
      ensures prefShowIcons == old(prefShowIcons) && prefHighlight == old(prefHighlight)
    {
      openInline := true;
    }

    /** Typing: the text is taken and the selection is dropped. */
    method OnQueryChange(text: string)
      requires Valid()
      modifies this
      ensures Valid()
      ensures query == text && activeIndex == -1
      ensures openInline == old(openInline) && debounced == old(debounced) && results == old(results)
      ensures isSearching == old(isSearching)
      ensures prefShowIcons == old(prefShowIcons) && prefHighlight == old(prefHighlight)
    {
      query := text;
      activeIndex := -1;
    }

    /**
     * The debounce timer fires. When the query already is the debounced value the state
     * setter bails out and the `[debounced]` effect does not run, so nothing changes.
     * Otherwise the debounced value catches up and the search effect runs: an empty query
     * clears the results and the selection, any other query starts a request for it.
     */
    method DebounceFires()
      requires Valid()
      modifies this
      ensures Valid()
      ensures debounced == old(query)
      ensures old(query) == old(debounced) ==>
        results == old(results) && activeIndex == old(activeIndex) && isSearching == old(isSearching)
      ensures old(query) != old(debounced) && debounced == "" ==>
        results == [] && activeIndex == -1 && isSearching == old(isSearching)
      ensures old(query) != old(debounced) && debounced != "" ==>
        isSearching && results == old(results) && activeIndex == old(activeIndex)
      ensures openInline == old(openInline) && query == old(query)
      ensures prefShowIcons == old(prefShowIcons) && prefHighlight == old(prefHighlight)
    {
      if query == debounced {
        return;
      }
      debounced := query;
      if debounced == "" {
        results := [];
        activeIndex := -1;
      } else {
        isSearching := true;
      }
    }

    /**
     * The answer to the request sent for `sent` arrives, already turned into what it puts
     * on show by `ReplyShown` (`None`: the request or the JSON failed). An answer to a
     * query that is no longer current is dropped.
     */
    method OnSearchReply(sent: string, shown: Option<seq<Json>>)
      requires Valid()
      requires shown.Some? ==> |shown.value| <= MaxResults
      modifies this`results, this`activeIndex, this`isSearching
      ensures Valid()
      ensures sent != debounced || sent == "" ==>
        results == old(results) && activeIndex == old(activeIndex) && isSearching == old(isSearching)
      ensures sent == debounced && sent != "" && shown.Some? ==>
        results == shown.value && activeIndex == -1 && !isSearching
      ensures sent == debounced && sent != "" && shown.None? ==>
        results == [] && activeIndex == old(activeIndex) && !isSearching
    {
      if sent != debounced || sent == "" {
        return;
      }
      if shown.Some? {
        results := shown.value;
        activeIndex := -1;
      } else {
        results := [];
      }
      isSearching := false;
    }

    /** A key pressed in the search field; returns the page opened, if any. */
    method OnKey(key: Key) returns (nav: Option<string>)
      requires Valid()
      modifies this
      ensures Valid()
      ensures key == ArrowDown ==> activeIndex == Down(old(activeIndex), |old(results)|)
      ensures key == ArrowUp ==> activeIndex == Up(old(activeIndex))
      ensures key == Enter ==> nav == EnterTarget(old(results), old(activeIndex))
      ensures key == Enter && nav.Some? ==> !openInline && query == "" && results == [] && activeIndex == -1
      ensures key == Escape ==> !openInline && query == "" && results == [] && activeIndex == -1
      ensures key != Enter ==> nav.None?
      ensures (key == OtherKey || (key == Enter && nav.None?)) ==>
        openInline == old(openInline) && query == old(query) && results == old(results)
        && activeIndex == old(activeIndex)
      ensures key in {ArrowDown, ArrowUp} ==>
        openInline == old(openInline) && query == old(query) && results == old(results)
      ensures debounced == old(debounced) && isSearching == old(isSearching)
      ensures prefShowIcons == old(prefShowIcons) && prefHighlight == old(prefHighlight)
    {
      nav := None;
      match key
      case ArrowDown =>
        activeIndex := Down(activeIndex, |results|);
      case ArrowUp =>
        activeIndex := Up(activeIndex);
      case Enter =>
        nav := EnterTarget(results, activeIndex);
        if nav.Some? {
          Close();
        }
      case Escape =>
        Close();
      case OtherKey =>
    }

    /** The close button. */
    method OnCloseButton()
      requires Valid()
      modifies this
      ensures Valid()
      ensures !openInline && query == "" && results == [] && activeIndex == -1
      ensures debounced == old(debounced) && isSearching == old(isSearching)
      ensures prefShowIcons == old(prefShowIcons) && prefHighlight == old(prefHighlight)
    {
      Close();
    }

    /** A mouse press outside the search box closes it. */
    method OnOutsideMouseDown()
      requires Valid()
      modifies this
      ensures Valid()
      ensures !openInline && query == "" && results == [] && activeIndex == -1
      ensures debounced == old(debounced) && isSearching == old(isSearching)
      ensures prefShowIcons == old(prefShowIcons) && prefHighlight == old(prefHighlight)
    {
      Close();
    }

    /** Pointing at a result selects it. */
    method OnResultHover(idx: nat)
      requires Valid() && idx < |results|
      modifies this
      ensures Valid() && activeIndex == idx
      ensures openInline == old(openInline) && query == old(query) && results == old(results)
      ensures debounced == old(debounced) && isSearching == old(isSearching)
      ensures prefShowIcons == old(prefShowIcons) && prefHighlight == old(prefHighlight)
    {
      activeIndex := idx;
    }

    /** Clicking a result opens it and closes the search. */
    method OnResultClick(idx: nat) returns (nav: string)
      requires Valid() && idx < |results|
      modifies this
      ensures Valid()
      ensures nav == ProductPath(old(results)[idx])
      ensures !openInline && query == "" && results == [] && activeIndex == -1
      ensures debounced == old(debounced) && isSearching == old(isSearching)
      ensures prefShowIcons == old(prefShowIcons) && prefHighlight == old(prefHighlight)
    {
      nav := ProductPath(results[idx]);
      Close();
    }

    method ToggleIcons()
      requires Valid()
      modifies this
      ensures Valid()
      ensures prefShowIcons == !old(prefShowIcons) && prefHighlight == old(prefHighlight)
      ensures openInline == old(openInline) && query == old(query) && results == old(results)
      ensures activeIndex == old(activeIndex) && debounced == old(debounced) && isSearching == old(isSearching)
    {
      prefShowIcons := !prefShowIcons;
    }

    method ToggleHighlight()
      requires Valid()
      modifies this
      ensures Valid()
      ensures prefHighlight == !old(prefHighlight) && prefShowIcons == old(prefShowIcons)
      ensures openInline == old(openInline) && query == old(query) && results == old(results)
      ensures activeIndex == old(activeIndex) && debounced == old(debounced) && isSearching == old(isSearching)
    {
      prefHighlight := !prefHighlight;
    }

    /** "See all results": with a non-blank query, opens the home page and closes the search. */
    method OnSeeAll() returns (nav: Option<string>)
      requires Valid()
      modifies this
      ensures Valid()
      ensures nav == SeeAllTarget(old(query), old(debounced), old(prefShowIcons), old(prefHighlight))
      ensures nav.None? ==> openInline && query == old(query) && results == old(results)
      ensures nav.None? ==> activeIndex == old(activeIndex)
      ensures nav.Some? ==> !openInline && query == "" && results == [] && activeIndex == -1
      ensures debounced == old(debounced) && isSearching == old(isSearching)
      ensures prefShowIcons == old(prefShowIcons) && prefHighlight == old(prefHighlight)
    {
      var blank := Trim(query) == [] && Trim(debounced) == [];
      nav := SeeAllTarget(query, debounced, prefShowIcons, prefHighlight);
      assert nav.None? <==> blank;
      if blank {
        openInline := true;
      } else {
        Close();
      }
    }

    /** The dropdown is shown while the search is open and the query is not blank. */
    predicate DropdownShown()
      reads this
    {
      openInline && Trim(query) != []
    }
  }
}
