/** Browsing a registry: pushing the longest search token upstream keeps the meaning of the whole search. */
module HarborSearch {
  import opened BundleManifest
  import Text

  /** How characters fold for caseless comparison, and which ones are white space or digits. */
  datatype Alphabet = Alphabet(fold: char -> string, space: char -> bool, digit: char -> bool)

  predicate IsSeparator(a: Alphabet, c: char) {
    a.space(c) || c == '/' || c == '_' || c == '.' || c == ':' || c == '-'
  }

  /** A blank is white space, and folding a name character never makes a separator or nothing at all. */
  ghost predicate Coherent(a: Alphabet) {
    a.space(' ') && forall c {:trigger a.fold(c)} :: !IsSeparator(a, c) ==> a.fold(c) != "" && NoSeparator(a, a.fold(c))
  }

  predicate NoSeparator(a: Alphabet, s: string) {
    forall i :: 0 <= i < |s| ==> !IsSeparator(a, s[i])
  }

  /** casefold */
  function Fold(a: Alphabet, s: string): string {
    if s == "" then "" else a.fold(s[0]) + Fold(a, s[1..])
  }

  function RunLength(a: Alphabet, s: string): (n: nat)
    ensures n <= |s| && NoSeparator(a, s[..n])
  {
    if s == "" || IsSeparator(a, s[0]) then 0
    else
      var n := RunLength(a, s[1..]);
      assert s[..1 + n] == [s[0]] + s[1..][..n];
      1 + n
  }

  /** The nonempty pieces between separators. */
  function Pieces(a: Alphabet, s: string): (r: seq<string>)
    ensures forall i :: 0 <= i < |r| ==> r[i] != "" && NoSeparator(a, r[i])
    decreases |s|
  {
    if s == "" then []
    else if IsSeparator(a, s[0]) then Pieces(a, s[1..])
    else
      var n := RunLength(a, s);
      [s[..n]] + Pieces(a, s[n..])
  }

  function FoldAll(a: Alphabet, pieces: seq<string>): (r: seq<string>)
    ensures |r| == |pieces| && forall i :: 0 <= i < |r| ==> r[i] == Fold(a, pieces[i])
  {
    seq(|pieces|, i requires 0 <= i < |pieces| => Fold(a, pieces[i]))
  }

  /** _search_tokens */
  function SearchTokens(a: Alphabet, search: string): seq<string> {
    FoldAll(a, Pieces(a, search))
  }

  function JoinBlank(parts: seq<string>): string {
    if parts == [] then "" else if |parts| == 1 then parts[0] else parts[0] + " " + JoinBlank(parts[1..])
  }

  function Normalized(a: Alphabet, value: string): string {
    JoinBlank(Pieces(a, Fold(a, value)))
  }

  predicate OccursAt(text: string, needle: string, i: int) {
    0 <= i && i + |needle| <= |text| && text[i..i + |needle|] == needle
  }

  predicate Contains(text: string, needle: string) {
    exists i :: 0 <= i <= |text| && OccursAt(text, needle, i)
  }

  /** _matches_tokens for one value */
  predicate MatchesTokens(a: Alphabet, value: string, search: string) {
    forall i :: 0 <= i < |SearchTokens(a, search)| ==> Contains(Normalized(a, value), SearchTokens(a, search)[i])
  }

  /** max(tokens, key=len): the first of the longest. */
  function Longest(tokens: seq<string>): (t: string)
    requires tokens != []
    ensures t in tokens && forall i :: 0 <= i < |tokens| ==> |tokens[i]| <= |t|
  {
    if |tokens| == 1 then tokens[0]
    else
      var rest := Longest(tokens[1..]);
      if |tokens[0]| >= |rest| then tokens[0] else rest
  }

  /** Among tokens of one length the first is taken. */
  lemma {:induction false} LongestIsFirst(tokens: seq<string>)
    requires tokens != []
    ensures exists i :: 0 <= i < |tokens| && tokens[i] == Longest(tokens) &&
                        forall j :: 0 <= j < i ==> |tokens[j]| < |tokens[i]|
  {
    var t := Longest(tokens);
    if |tokens| == 1 || t == tokens[0] {
      assert tokens[0] == t;
    } else {
      LongestIsFirst(tokens[1..]);
      var i :| 0 <= i < |tokens[1..]| && tokens[1..][i] == t && forall j :: 0 <= j < i ==> |tokens[1..][j]| < |t|;
      assert tokens[i + 1] == t;
      assert forall j :: 0 < j < i + 1 ==> tokens[j] == tokens[1..][j - 1];
    }
  }

  /** What a registry lists: the full name, and everything else about the item. */
  datatype Item = Item(name: string, details: string)

  /** _repository_name: without the project prefix; project names are shown as they are. */
  function Shown(project: Option<string>, name: string): string {
    if project.Some? && project.value + "/" <= name then name[|project.value| + 1..] else name
  }

  /** Harbor's fuzzy name filter: a caseless substring of the full name. */
  predicate UpstreamMatches(a: Alphabet, item: Item, needle: string) {
    Contains(Fold(a, item.name), needle)
  }

  function UpstreamList(a: Alphabet, items: seq<Item>, needle: string): (r: seq<Item>) {
    if items == [] then []
    else
      UpstreamList(a, items[..|items| - 1], needle) +
      if UpstreamMatches(a, items[|items| - 1], needle) then [items[|items| - 1]] else []
  }

  function LocalMatches(a: Alphabet, project: Option<string>, items: seq<Item>, search: string): seq<Item> {
    if items == [] then []
    else
      LocalMatches(a, project, items[..|items| - 1], search) +
      if MatchesTokens(a, Shown(project, items[|items| - 1].name), search) then [items[|items| - 1]] else []
  }

  /** The sort key. */
  function SortKey(a: Alphabet, project: Option<string>, item: Item): string {
    Fold(a, Shown(project, item.name))
  }

  /** Stable insertion by key. */
  function Placed(a: Alphabet, project: Option<string>, item: Item, sorted: seq<Item>): (r: seq<Item>)
    ensures |r| == |sorted| + 1 && multiset(r) == multiset(sorted) + multiset{item}
  {
    if sorted == [] then [item]
    else
      if Text.Leq(SortKey(a, project, sorted[0]), SortKey(a, project, item)) then
        assert sorted == [sorted[0]] + sorted[1..];
        [sorted[0]] + Placed(a, project, item, sorted[1..])
      else [item] + sorted
  }

  /** matches.sort(key=casefolded shown name) */
  function SortByName(a: Alphabet, project: Option<string>, items: seq<Item>): (r: seq<Item>)
    ensures |r| == |items| && multiset(r) == multiset(items)
  {
    if items == [] then []
    else
      assert items == items[..|items| - 1] + [items[|items| - 1]];
      Placed(a, project, items[|items| - 1], SortByName(a, project, items[..|items| - 1]))
  }

  const SCAN_PAGE_SIZE: nat := 100
  const SCAN_MAX_PAGES: nat := 20
  const SCAN_CAP: nat := 2000

  function Slice(items: seq<Item>, start: nat, size: nat): seq<Item> {
    if start >= |items| then [] else if start + size >= |items| then items[start..] else items[start..start + size]
  }

  /** One upstream page, counted from 1, with its total. */
  function UpstreamPage(list: seq<Item>, page: nat): seq<Item>
    requires page >= 1
  {
    Slice(list, (page - 1) * SCAN_PAGE_SIZE, SCAN_PAGE_SIZE)
  }

  /** _fuzzy_query refuses its own delimiters. */
  predicate Refused(needle: string) {
    exists i :: 0 <= i < |needle| &&
      (needle[i] == ',' || needle[i] == '=' || needle[i] == '\n' || needle[i] == '\r' || needle[i] == '\0')
  }

  function Scanned(list: seq<Item>): seq<Item> {
    if |list| <= SCAN_CAP then list else list[..SCAN_CAP]
  }

  function DropBlanks(a: Alphabet, s: string): string {
    if s != "" && a.space(s[0]) then DropBlanks(a, s[1..]) else s
  }

  function DropTrailingBlanks(a: Alphabet, s: string): string {
    if s != "" && a.space(s[|s| - 1]) then DropTrailingBlanks(a, s[..|s| - 1]) else s
  }

  /** search.strip() */
  function Stripped(a: Alphabet, s: string): string {
    DropTrailingBlanks(a, DropBlanks(a, s))
  }

  function DigitRun(a: Alphabet, s: string): (n: nat)
    ensures n <= |s|
  {
    if s != "" && a.digit(s[0]) then 1 + DigitRun(a, s[1..]) else 0
  }

  predicate IsVersionTail(c: char) {
    'a' <= c <= 'z' || 'A' <= c <= 'Z' || '0' <= c <= '9' || c == '-' || c == '+' || c == '.' || c == '_'
  }

  /** How far "." and digits repeat from the start of the text. */
  function DottedRun(a: Alphabet, s: string): (n: nat)
    ensures n <= |s|
    decreases |s|
  {
    if s == "" || s[0] != '.' || DigitRun(a, s[1..]) == 0 then 0
    else
      var group := 1 + DigitRun(a, s[1..]);
      group + DottedRun(a, s[group..])
  }

  /**
    A version number: an optional "v", digits, at least one group of a dot and digits, then an ASCII
    tail. The digits before the tail may be those of any script.
   */
  predicate VersionLike(a: Alphabet, s: string) {
    var t := if s != "" && (s[0] == 'v' || s[0] == 'V') then s[1..] else s;
    var n := DigitRun(a, t);
    && n > 0
    && var groups := DottedRun(a, t[n..]);
    && groups > 0
    && forall i :: n + groups <= i < |t| ==> IsVersionTail(t[i])
  }

  /** _direct_fuzzy_search: pushed upstream whole, and never handed to Search. */
  predicate Direct(a: Alphabet, search: string) {
    VersionLike(a, Stripped(a, search)) || |SearchTokens(a, search)| <= 1
  }

  /** _upstream_needle */
  function UpstreamNeedle(a: Alphabet, search: string): string {
    if VersionLike(a, Stripped(a, search)) || SearchTokens(a, search) == [] then Stripped(a, search)
    else Longest(SearchTokens(a, search))
  }

  lemma NeedleIsToken(a: Alphabet, search: string)
    requires !Direct(a, search)
    ensures UpstreamNeedle(a, search) in SearchTokens(a, search)
  {
    hide VersionLike;
    hide SearchTokens;
    hide Stripped;
  }

  lemma SliceSplits(items: seq<Item>, start: nat, size: nat)
    ensures Slice(items, 0, start) + Slice(items, start, size) == Slice(items, 0, start + size)
    ensures start >= |items| ==> Slice(items, 0, start) == items
    ensures start < |items| ==> Slice(items, 0, start) == items[..start]
  {
  }

  /** The inner loop: one upstream page, every token checked locally. */
  method ScanPage(
    a: Alphabet, project: Option<string>, search: string, found: seq<Item>, page: seq<Item>, ghost seen: seq<Item>)
    returns (matches: seq<Item>)
    requires found == LocalMatches(a, project, seen, search)
    ensures matches == LocalMatches(a, project, seen + page, search)
  {
    hide MatchesTokens;
    hide LocalMatches;
    hide Shown;
    matches := found;
    assert seen + page[..0] == seen;
    for k := 0 to |page|
      invariant matches == LocalMatches(a, project, seen + page[..k], search)
    {
      LocalMatchesPush(a, project, seen + page[..k], page[k], search);
      assert seen + page[..k] + [page[k]] == seen + page[..k + 1];
      if MatchesTokens(a, Shown(project, page[k].name), search) {
        matches := matches + [page[k]];
      }
    }
    assert page[..|page|] == page;
  }

  /** What has been read after a page, and when that is the whole scan. */
  lemma PagesRead(list: seq<Item>, page: nat)
    requires 1 <= page <= SCAN_MAX_PAGES
    ensures Slice(list, 0, 0) == []
    ensures Slice(list, 0, (page - 1) * SCAN_PAGE_SIZE) + UpstreamPage(list, page) ==
            Slice(list, 0, page * SCAN_PAGE_SIZE)
    ensures page * SCAN_PAGE_SIZE >= |list| || page == SCAN_MAX_PAGES ==>
              Slice(list, 0, page * SCAN_PAGE_SIZE) == Scanned(list)
  {
    SliceSplits(list, (page - 1) * SCAN_PAGE_SIZE, SCAN_PAGE_SIZE);
    SliceSplits(list, page * SCAN_PAGE_SIZE, 0);
    assert (page - 1) * SCAN_PAGE_SIZE + SCAN_PAGE_SIZE == page * SCAN_PAGE_SIZE <= SCAN_CAP;
  }

  /** The outer loop: page after page of the upstream result, to its end or to the scan cap. */
  method ScanPages(a: Alphabet, project: Option<string>, search: string, list: seq<Item>) returns (matches: seq<Item>)
    ensures matches == LocalMatches(a, project, Scanned(list), search)
  {
    matches := [];
    PagesRead(list, 1);
    assert LocalMatches(a, project, [], search) == [];
    hide MatchesTokens;
    hide LocalMatches;
    hide Slice;
    hide Scanned;
    hide UpstreamPage;
    for page := 1 to SCAN_MAX_PAGES + 1
      invariant matches == LocalMatches(a, project, Slice(list, 0, (page - 1) * SCAN_PAGE_SIZE), search)
      invariant page > SCAN_MAX_PAGES ==> matches == LocalMatches(a, project, Scanned(list), search)
    {
      PagesRead(list, page);
      ghost var seen := Slice(list, 0, (page - 1) * SCAN_PAGE_SIZE);
      matches := ScanPage(a, project, search, matches, UpstreamPage(list, page), seen);
      if page * SCAN_PAGE_SIZE >= |list| {
        return;
      }
    }
  }

  /** _search_projects and _search_repositories, against a listing that does not change meanwhile */
  method Search(a: Alphabet, project: Option<string>, items: seq<Item>, search: string) returns (r: Option<seq<Item>>)
    requires !Direct(a, search)
    ensures r.None? <==> Refused(UpstreamNeedle(a, search))
    ensures r.Some? ==>
              r.value == SortByName(a, project, LocalMatches(
                a, project, Scanned(UpstreamList(a, items, UpstreamNeedle(a, search))), search))
    ensures r.Some? ==> InOrder(a, project, r.value) && |r.value| <= 2000
    ensures r.Some? && Coherent(a) && |items| <= 2000 ==> Complete(a, project, items, search, r.value)
  {
    hide *;
    var needle := UpstreamNeedle(a, search);
    if Refused(needle) {
      return None;
    }
    AnswerIsComplete(a, project, items, search);
    var matches := ScanPages(a, project, search, UpstreamList(a, items, needle));
    return Some(SortByName(a, project, matches));
  }

  lemma ContainsInner(before: string, text: string, after: string, needle: string)
    requires Contains(text, needle)
    ensures Contains(before + text + after, needle)
  {
    var i :| 0 <= i <= |text| && OccursAt(text, needle, i);
    var whole := before + text + after;
    assert whole[|before| + i..|before| + i + |needle|] == text[i..i + |needle|];
    assert OccursAt(whole, needle, |before| + i);
  }

  /** A needle without a blank that occurs in a joined text occurs in one of its parts. */
  lemma {:induction false} JoinedContains(parts: seq<string>, needle: string)
    requires needle != "" && ' ' !in needle && Contains(JoinBlank(parts), needle)
    ensures exists i :: 0 <= i < |parts| && Contains(parts[i], needle)
  {
    if |parts| == 1 {
      assert Contains(parts[0], needle);
    } else if |parts| > 1 {
      var first, rest := parts[0], JoinBlank(parts[1..]);
      var text := first + " " + rest;
      var i :| 0 <= i <= |text| && OccursAt(text, needle, i);
      assert text[|first|] == ' ';
      var cut := text[i..i + |needle|];
      assert forall q :: 0 <= q < |cut| ==> cut[q] == text[i + q];
      assert forall p :: i <= p < i + |needle| ==> text[p] == needle[p - i];
      if i + |needle| <= |first| {
        assert text[i..i + |needle|] == first[i..i + |needle|];
        assert OccursAt(first, needle, i);
      } else {
        var j := i - |first| - 1;
        assert text[i..i + |needle|] == rest[j..j + |needle|];
        assert OccursAt(rest, needle, j);
        JoinedContains(parts[1..], needle);
        var k :| 0 <= k < |parts[1..]| && Contains(parts[1..][k], needle);
        assert parts[k + 1] == parts[1..][k];
      }
    }
  }

  /** Where the pieces of a text start: past a separator, or with the first run. */
  lemma PiecesStep(a: Alphabet, s: string)
    requires s != ""
    ensures IsSeparator(a, s[0]) ==> Pieces(a, s) == Pieces(a, s[1..])
    ensures !IsSeparator(a, s[0]) ==>
              RunLength(a, s) > 0 && Pieces(a, s) == [s[..RunLength(a, s)]] + Pieces(a, s[RunLength(a, s)..])
  {
    hide IsSeparator;
    hide NoSeparator;
  }

  lemma CutAndJoin(s: string, n: nat)
    requires n <= |s|
    ensures s == "" + s[..n] + s[n..] && s == s[..n] + s[n..] + ""
    ensures s != "" ==> s == [s[0]] + s[1..] + ""
  {
  }

  /** Every piece is a stretch of the text it was cut from. */
  lemma {:induction false} PieceIsInside(a: Alphabet, s: string, i: nat, needle: string)
    requires i < |Pieces(a, s)| && Contains(Pieces(a, s)[i], needle)
    ensures Contains(s, needle)
    decreases |s|
  {
    assert s != "";
    hide Contains;
    hide Pieces;
    hide IsSeparator;
    hide NoSeparator;
    PiecesStep(a, s);
    CutAndJoin(s, RunLength(a, s));
    hide RunLength;
    if IsSeparator(a, s[0]) {
      PieceIsInside(a, s[1..], i, needle);
      ContainsInner([s[0]], s[1..], "", needle);
    } else {
      var n := RunLength(a, s);
      if i == 0 {
        ContainsInner("", s[..n], s[n..], needle);
      } else {
        PieceIsInside(a, s[n..], i - 1, needle);
        ContainsInner(s[..n], s[n..], "", needle);
      }
    }
  }

  lemma {:induction false} FoldAppend(a: Alphabet, s: string, t: string)
    ensures Fold(a, s + t) == Fold(a, s) + Fold(a, t)
  {
    if s == "" {
      assert s + t == t;
    } else {
      FoldAppend(a, s[1..], t);
      assert (s + t)[1..] == s[1..] + t;
    }
  }

  /** Folding a piece keeps it free of separators and nonempty. */
  lemma {:induction false} FoldedPiece(a: Alphabet, s: string)
    requires Coherent(a) && NoSeparator(a, s)
    ensures NoSeparator(a, Fold(a, s)) && (s != "" ==> Fold(a, s) != "")
  {
    if s != "" {
      assert !IsSeparator(a, s[0]);
      assert NoSeparator(a, a.fold(s[0]));
      FoldedPiece(a, s[1..]);
    }
  }

  lemma TokenFacts(a: Alphabet, search: string, token: string)
    requires Coherent(a) && token in SearchTokens(a, search)
    ensures token != "" && ' ' !in token
  {
    var i :| 0 <= i < |Pieces(a, search)| && token == Fold(a, Pieces(a, search)[i]);
    FoldedPiece(a, Pieces(a, search)[i]);
  }

  /** Whatever matches every token locally was not filtered out upstream. */
  lemma LocalImpliesUpstream(a: Alphabet, project: Option<string>, item: Item, search: string, needle: string)
    requires Coherent(a) && needle in SearchTokens(a, search)
    requires MatchesTokens(a, Shown(project, item.name), search)
    ensures UpstreamMatches(a, item, needle)
  {
    TokenFacts(a, search, needle);
    var shown := Shown(project, item.name);
    var i :| 0 <= i < |SearchTokens(a, search)| && SearchTokens(a, search)[i] == needle;
    assert Contains(Normalized(a, shown), needle);
    hide Contains;
    hide SearchTokens;
    JoinedContains(Pieces(a, Fold(a, shown)), needle);
    var k :| 0 <= k < |Pieces(a, Fold(a, shown))| && Contains(Pieces(a, Fold(a, shown))[k], needle);
    PieceIsInside(a, Fold(a, shown), k, needle);
    var prefix := item.name[..|item.name| - |shown|];
    assert item.name == prefix + shown;
    FoldAppend(a, prefix, shown);
    ContainsInner(Fold(a, prefix), Fold(a, shown), "", needle);
    assert Fold(a, prefix) + Fold(a, shown) + "" == Fold(a, item.name);
  }

  lemma LocalMatchesPush(a: Alphabet, project: Option<string>, list: seq<Item>, item: Item, search: string)
    ensures LocalMatches(a, project, list + [item], search) ==
            LocalMatches(a, project, list, search) +
            if MatchesTokens(a, Shown(project, item.name), search) then [item] else []
  {
    hide MatchesTokens;
    assert (list + [item])[..|list|] == list;
  }

  /** Filtering upstream first and by every token afterwards is filtering by every token. */
  lemma {:induction false} PushdownKeepsMatches(
    a: Alphabet, project: Option<string>, items: seq<Item>, search: string, needle: string)
    requires Coherent(a) && needle in SearchTokens(a, search)
    ensures LocalMatches(a, project, UpstreamList(a, items, needle), search) == LocalMatches(a, project, items, search)
  {
    if items == [] {
      assert UpstreamList(a, items, needle) == items;
    } else {
      var n := |items| - 1;
      var item := items[n];
      assert items[..n] + [item] == items;
      UpstreamLast(a, items, needle);
      hide *;
      PushdownKeepsMatches(a, project, items[..n], search, needle);
      if MatchesTokens(a, Shown(project, item.name), search) {
        LocalImpliesUpstream(a, project, item, search, needle);
      }
      LocalMatchesPush(a, project, UpstreamList(a, items[..n], needle), item, search);
      LocalMatchesPush(a, project, items[..n], item, search);
    }
  }

  lemma UpstreamLast(a: Alphabet, items: seq<Item>, needle: string)
    requires items != []
    ensures var n := |items| - 1;
            UpstreamList(a, items, needle) ==
            if UpstreamMatches(a, items[n], needle) then UpstreamList(a, items[..n], needle) + [items[n]]
            else UpstreamList(a, items[..n], needle)
  {
    hide UpstreamMatches;
  }

  lemma {:induction false} LocalMatchesAppend(
    a: Alphabet, project: Option<string>, s: seq<Item>, t: seq<Item>, search: string)
    ensures LocalMatches(a, project, s + t, search) ==
            LocalMatches(a, project, s, search) + LocalMatches(a, project, t, search)
  {
    hide MatchesTokens;
    hide Shown;
    if t == [] {
      assert s + t == s && LocalMatches(a, project, t, search) == [];
    } else {
      var n := |t| - 1;
      LocalMatchesAppend(a, project, s, t[..n], search);
      LocalMatchesPush(a, project, t[..n], t[n], search);
      LocalMatchesPush(a, project, s + t[..n], t[n], search);
      hide LocalMatches;
      assert t[..n] + [t[n]] == t && s + t[..n] + [t[n]] == s + t;
      var ls, lt := LocalMatches(a, project, s, search), LocalMatches(a, project, t[..n], search);
      var last := if MatchesTokens(a, Shown(project, t[n].name), search) then [t[n]] else [];
      assert ls + (lt + last) == ls + lt + last;
    }
  }

  /**
    The pushed-down search gives exactly the sorted result of filtering the whole listing locally, for
    projects and for repositories shown without their project, if and only if nothing that matches lies
    beyond the scan cap; in particular whenever the upstream result fits the cap.
   */
  lemma PushdownKeepsMeaning(a: Alphabet, project: Option<string>, items: seq<Item>, search: string)
    requires Coherent(a) && !Direct(a, search)
    ensures var list := UpstreamList(a, items, UpstreamNeedle(a, search));
            var beyond := if |list| <= SCAN_CAP then [] else list[SCAN_CAP..];
            && (SortByName(a, project, LocalMatches(a, project, Scanned(list), search)) ==
                SortByName(a, project, LocalMatches(a, project, items, search)) <==>
                LocalMatches(a, project, beyond, search) == [])
            && (|list| <= SCAN_CAP ==> LocalMatches(a, project, beyond, search) == [])
  {
    var needle := UpstreamNeedle(a, search);
    var list := UpstreamList(a, items, needle);
    NeedleIsToken(a, search);
    hide UpstreamNeedle;
    hide Direct;
    PushdownKeepsMatches(a, project, items, search, needle);
    hide SearchTokens;
    hide UpstreamList;
    CapSplits(a, project, list, search);
    hide LocalMatches;
    hide SortByName;
    hide Coherent;
  }

  lemma CapSplits(a: Alphabet, project: Option<string>, list: seq<Item>, search: string)
    ensures var beyond := if |list| <= SCAN_CAP then [] else list[SCAN_CAP..];
            && (SortByName(a, project, LocalMatches(a, project, Scanned(list), search)) ==
                SortByName(a, project, LocalMatches(a, project, list, search)) <==>
                LocalMatches(a, project, beyond, search) == [])
            && (|list| <= SCAN_CAP ==> LocalMatches(a, project, beyond, search) == [])
  {
    hide MatchesTokens;
    if |list| > SCAN_CAP {
      LocalMatchesAppend(a, project, list[..SCAN_CAP], list[SCAN_CAP..], search);
      assert list == list[..SCAN_CAP] + list[SCAN_CAP..];
      hide LocalMatches;
      SortTellsLength(a, project, LocalMatches(a, project, list[..SCAN_CAP], search),
                      LocalMatches(a, project, list[SCAN_CAP..], search));
    }
  }

  lemma SortTellsLength(a: Alphabet, project: Option<string>, s: seq<Item>, t: seq<Item>)
    ensures SortByName(a, project, s) == SortByName(a, project, s + t) <==> t == []
  {
    hide Placed;
    assert t == [] ==> s + t == s;
    assert |SortByName(a, project, s)| == |s| && |SortByName(a, project, s + t)| == |s| + |t|;
  }

  /** A run stops only at a separator. */
  lemma {:induction false} RunIsMaximal(a: Alphabet, s: string)
    ensures RunLength(a, s) == |s| || IsSeparator(a, s[RunLength(a, s)])
  {
    hide NoSeparator;
    if s != "" && !IsSeparator(a, s[0]) {
      RunIsMaximal(a, s[1..]);
    }
  }

  /** An occurrence that does not cross a separator lies before it or behind it. */
  lemma OccursOnOneSide(a: Alphabet, s: string, n: nat, needle: string, i: nat)
    requires needle != "" && NoSeparator(a, needle) && OccursAt(s, needle, i)
    requires n <= |s| && (n == |s| || IsSeparator(a, s[n]))
    ensures OccursAt(s[..n], needle, i) || (i >= n && OccursAt(s[n..], needle, i - n))
  {
    hide IsSeparator;
    assert forall p :: i <= p < i + |needle| ==> s[p] == needle[p - i] && !IsSeparator(a, s[p]);
    if i + |needle| <= n {
      assert s[..n][i..i + |needle|] == s[i..i + |needle|];
    } else if i >= n {
      assert s[n..][i - n..i - n + |needle|] == s[i..i + |needle|];
    }
  }

  /** What a text contains without crossing a separator, one of its pieces contains. */
  lemma {:induction false} InsideIsPiece(a: Alphabet, s: string, needle: string)
    requires needle != "" && NoSeparator(a, needle) && Contains(s, needle)
    ensures exists k :: 0 <= k < |Pieces(a, s)| && Contains(Pieces(a, s)[k], needle)
    decreases |s|
  {
    var i :| 0 <= i <= |s| && OccursAt(s, needle, i);
    assert s[i] == needle[0];
    hide Pieces;
    hide RunLength;
    PiecesStep(a, s);
    if IsSeparator(a, s[0]) {
      assert i > 0;
      assert s[1..][i - 1..i - 1 + |needle|] == s[i..i + |needle|];
      assert OccursAt(s[1..], needle, i - 1);
      InsideIsPiece(a, s[1..], needle);
    } else {
      var n := RunLength(a, s);
      RunIsMaximal(a, s);
      OccursOnOneSide(a, s, n, needle, i);
      hide IsSeparator;
      hide NoSeparator;
      if OccursAt(s[..n], needle, i) {
        assert Pieces(a, s)[0] == s[..n] && Contains(s[..n], needle);
      } else {
        assert Contains(s[n..], needle);
        InsideIsPiece(a, s[n..], needle);
        var k :| 0 <= k < |Pieces(a, s[n..])| && Contains(Pieces(a, s[n..])[k], needle);
        assert Pieces(a, s)[k + 1] == Pieces(a, s[n..])[k];
      }
    }
  }

  /** What a part contains, the joined text contains. */
  lemma {:induction false} JoinHolds(parts: seq<string>, k: nat, needle: string)
    requires k < |parts| && Contains(parts[k], needle)
    ensures Contains(JoinBlank(parts), needle)
  {
    hide Contains;
    if |parts| > 1 {
      var rest := JoinBlank(parts[1..]);
      if k == 0 {
        ContainsInner("", parts[0], " " + rest, needle);
        assert "" + parts[0] + (" " + rest) == parts[0] + " " + rest;
      } else {
        JoinHolds(parts[1..], k - 1, needle);
        ContainsInner(parts[0] + " ", rest, "", needle);
        assert parts[0] + " " + rest + "" == parts[0] + " " + rest;
      }
    }
  }

  /** Cutting at separators and joining again hides nothing from a needle without them, and adds nothing. */
  lemma NormalizedContainsIff(a: Alphabet, text: string, needle: string)
    requires a.space(' ') && needle != "" && NoSeparator(a, needle)
    ensures Contains(JoinBlank(Pieces(a, text)), needle) <==> Contains(text, needle)
  {
    assert ' ' !in needle;
    hide NoSeparator;
    hide Contains;
    hide Pieces;
    hide JoinBlank;
    if Contains(JoinBlank(Pieces(a, text)), needle) {
      JoinedContains(Pieces(a, text), needle);
      var k :| 0 <= k < |Pieces(a, text)| && Contains(Pieces(a, text)[k], needle);
      PieceIsInside(a, text, k, needle);
    }
    if Contains(text, needle) {
      InsideIsPiece(a, text, needle);
      var k :| 0 <= k < |Pieces(a, text)| && Contains(Pieces(a, text)[k], needle);
      JoinHolds(Pieces(a, text), k, needle);
    }
  }

  /** The shown text contains every piece of the search, both folded. */
  ghost predicate ShowsAll(a: Alphabet, shown: string, search: string) {
    forall i :: 0 <= i < |Pieces(a, search)| ==> Contains(Fold(a, shown), Fold(a, Pieces(a, search)[i]))
  }

  /** The local match says exactly that. */
  lemma MatchesMeans(a: Alphabet, shown: string, search: string)
    requires Coherent(a)
    ensures MatchesTokens(a, shown, search) <==> ShowsAll(a, shown, search)
  {
    var pieces, text := Pieces(a, search), Fold(a, shown);
    forall i | 0 <= i < |pieces|
      ensures Contains(Normalized(a, shown), Fold(a, pieces[i])) <==> Contains(text, Fold(a, pieces[i]))
    {
      FoldedPiece(a, pieces[i]);
      NormalizedContainsIff(a, text, Fold(a, pieces[i]));
    }
    hide Contains;
    hide Normalized;
    hide Pieces;
    hide Fold;
    assert forall i :: 0 <= i < |pieces| ==> SearchTokens(a, search)[i] == Fold(a, pieces[i]);
  }

  /** What is listed upstream is listed, and what matches keeps its number. */
  lemma {:induction false} UpstreamKeeps(a: Alphabet, items: seq<Item>, needle: string, x: Item)
    ensures |UpstreamList(a, items, needle)| <= |items|
    ensures multiset(UpstreamList(a, items, needle))[x] ==
            if Contains(Fold(a, x.name), needle) then multiset(items)[x] else 0
  {
    if items != [] {
      var n := |items| - 1;
      UpstreamKeeps(a, items[..n], needle, x);
      assert items == items[..n] + [items[n]];
      hide Contains;
    }
  }

  lemma {:induction false} LocalKeeps(a: Alphabet, project: Option<string>, items: seq<Item>, search: string, x: Item)
    ensures multiset(LocalMatches(a, project, items, search))[x] ==
            if MatchesTokens(a, Shown(project, x.name), search) then multiset(items)[x] else 0
  {
    hide MatchesTokens;
    hide Shown;
    if items != [] {
      var n := |items| - 1;
      assert items == items[..n] + [items[n]];
      LocalMatchesPush(a, project, items[..n], items[n], search);
      LocalKeeps(a, project, items[..n], search, x);
      hide LocalMatches;
    }
  }

  /** A repository is shown without the project it was listed in; anything else as it is. */
  lemma ShownDropsProject(project: string, name: string)
    ensures Shown(Some(project), project + "/" + name) == name
    ensures Shown(None, name) == name
    ensures (forall rest: string :: name != project + "/" + rest) ==> Shown(Some(project), name) == name
  {
    var whole := project + "/" + name;
    assert project + "/" <= whole && whole[|project| + 1..] == name;
    if project + "/" <= name {
      assert name == project + "/" + name[|project| + 1..];
    }
  }

  /**
    The answer of a search, said without its filters: an item is in it as often as it is listed if its shown
    name contains every piece of the search, and not at all otherwise, as long as the upstream result fits
    the scan cap; beyond the cap it never holds more.
   */
  lemma AnswerMeans(a: Alphabet, project: Option<string>, items: seq<Item>, search: string, x: Item)
    requires Coherent(a) && !Direct(a, search)
    ensures var upstream := UpstreamList(a, items, UpstreamNeedle(a, search));
            var answer := SortByName(a, project, LocalMatches(a, project, Scanned(upstream), search));
            var count := if ShowsAll(a, Shown(project, x.name), search) then multiset(items)[x] else 0;
            && multiset(answer)[x] <= count
            && (|upstream| <= 2000 ==> multiset(answer)[x] == count)
            && |upstream| <= |items|
  {
    var needle := UpstreamNeedle(a, search);
    var upstream := UpstreamList(a, items, needle);
    hide *;
    NeedleIsToken(a, search);
    MatchesMeans(a, Shown(project, x.name), search);
    UpstreamKeeps(a, items, needle, x);
    PushdownKeepsMatches(a, project, items, search, needle);
    LocalKeeps(a, project, items, search, x);
    LocalKeeps(a, project, Scanned(upstream), search, x);
    ScannedIsPart(upstream, x);
  }

  /** The answer holds each item as often as it is listed if it shows every piece of the search, else not at all. */
  ghost predicate Complete(
    a: Alphabet, project: Option<string>, items: seq<Item>, search: string, answer: seq<Item>)
  {
    forall x :: multiset(answer)[x] == if ShowsAll(a, Shown(project, x.name), search) then multiset(items)[x] else 0
  }

  lemma AnswerIsComplete(a: Alphabet, project: Option<string>, items: seq<Item>, search: string)
    requires !Direct(a, search)
    ensures var answer := SortByName(
              a, project, LocalMatches(a, project, Scanned(UpstreamList(a, items, UpstreamNeedle(a, search))), search));
            && InOrder(a, project, answer) && |answer| <= 2000
            && (Coherent(a) && |items| <= 2000 ==> Complete(a, project, items, search, answer))
  {
    hide ShowsAll;
    hide Direct;
    hide LocalMatches;
    hide UpstreamList;
    hide UpstreamNeedle;
    hide InOrder;
    hide SortByName;
    hide Coherent;
    SortedInOrder(a, project, LocalMatches(
      a, project, Scanned(UpstreamList(a, items, UpstreamNeedle(a, search))), search));
    FewerMatches(a, project, Scanned(UpstreamList(a, items, UpstreamNeedle(a, search))), search);
    if Coherent(a) && |items| <= 2000 {
      forall x: Item {
        AnswerMeans(a, project, items, search, x);
      }
    }
  }

  lemma {:induction false} FewerMatches(a: Alphabet, project: Option<string>, items: seq<Item>, search: string)
    ensures |LocalMatches(a, project, items, search)| <= |items|
  {
    hide MatchesTokens;
    hide Shown;
    if items != [] {
      FewerMatches(a, project, items[..|items| - 1], search);
    }
  }

  lemma ScannedIsPart(list: seq<Item>, x: Item)
    ensures multiset(Scanned(list))[x] <= multiset(list)[x]
    ensures |list| <= 2000 ==> Scanned(list) == list
  {
    if |list| > SCAN_CAP {
      assert list == list[..SCAN_CAP] + list[SCAN_CAP..];
    }
  }

  predicate InOrder(a: Alphabet, project: Option<string>, items: seq<Item>) {
    forall i, j :: 0 <= i < j < |items| ==> Text.Leq(SortKey(a, project, items[i]), SortKey(a, project, items[j]))
  }

  lemma {:induction false} PlacedMembers(a: Alphabet, project: Option<string>, item: Item, sorted: seq<Item>)
    ensures forall x :: x in Placed(a, project, item, sorted) <==> x == item || x in sorted
  {
    hide SortKey;
    hide Text.Leq;
    if sorted != [] {
      PlacedMembers(a, project, item, sorted[1..]);
      assert sorted == [sorted[0]] + sorted[1..];
    }
  }

  lemma FirstIsLeast(a: Alphabet, project: Option<string>, first: Item, rest: seq<Item>)
    requires InOrder(a, project, rest)
    requires forall x :: x in rest ==> Text.Leq(SortKey(a, project, first), SortKey(a, project, x))
    ensures InOrder(a, project, [first] + rest)
  {
    hide SortKey;
    hide Text.Leq;
  }

  lemma {:induction false} PlacedInOrder(a: Alphabet, project: Option<string>, item: Item, sorted: seq<Item>)
    requires InOrder(a, project, sorted)
    ensures InOrder(a, project, Placed(a, project, item, sorted))
  {
    hide SortKey;
    hide Text.Leq;
    if sorted != [] {
      var first := sorted[0];
      assert sorted == [first] + sorted[1..];
      assert forall x :: x in sorted[1..] ==> Text.Leq(SortKey(a, project, first), SortKey(a, project, x));
      if Text.Leq(SortKey(a, project, first), SortKey(a, project, item)) {
        PlacedInOrder(a, project, item, sorted[1..]);
        PlacedMembers(a, project, item, sorted[1..]);
        FirstIsLeast(a, project, first, Placed(a, project, item, sorted[1..]));
      } else {
        Text.LeqTotal(SortKey(a, project, first), SortKey(a, project, item));
        forall x | x in sorted
          ensures Text.Leq(SortKey(a, project, item), SortKey(a, project, x))
        {
          if x != first {
            Text.LeqTransitive(SortKey(a, project, item), SortKey(a, project, first), SortKey(a, project, x));
          }
        }
        FirstIsLeast(a, project, item, sorted);
      }
    }
  }

  /** The result is in caseless name order. */
  lemma {:induction false} SortedInOrder(a: Alphabet, project: Option<string>, items: seq<Item>)
    ensures InOrder(a, project, SortByName(a, project, items))
  {
    hide SortKey;
    hide Placed;
    hide Text.Leq;
    if items != [] {
      SortedInOrder(a, project, items[..|items| - 1]);
      PlacedInOrder(a, project, items[|items| - 1], SortByName(a, project, items[..|items| - 1]));
    }
  }

  /** _page: the items of one page, counted from 1, and the total. */
  function Page(items: seq<Item>, page: nat, size: nat): (seq<Item>, nat)
    requires page >= 1
  {
    (Slice(items, (page - 1) * size, size), |items|)
  }

  function FirstPages(items: seq<Item>, n: nat, size: nat): seq<Item> {
    if n == 0 then [] else FirstPages(items, n - 1, size) + Page(items, n, size).0
  }

  /** Reading page after page gives the list from the start, and all of it once enough pages are read. */
  lemma {:induction false} PagesConcatenate(items: seq<Item>, n: nat, size: nat)
    ensures FirstPages(items, n, size) == Slice(items, 0, n * size)
    ensures n * size >= |items| ==> FirstPages(items, n, size) == items
  {
    if n == 0 {
    } else {
      PagesConcatenate(items, n - 1, size);
      SliceSplits(items, (n - 1) * size, size);
      assert (n - 1) * size + size == n * size;
    }
  }
}
