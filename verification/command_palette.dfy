/** The command palette: a searchable list of the enabled shortcuts with a
    fuzzy scorer, category grouping and keyboard selection. */
module CommandPalette {
  import opened Wrappers
  import opened Text
  import opened Seqs
  import opened StableSort
  import opened Shortcuts
  import opened SettingsStore

  datatype SearchResultType = AppShortcutResult | ClipboardShortcutResult

  /** One line of the list; exactly one of the two shortcut fields is set
      by the loader, matching `resultType`. */
  datatype SearchResult = SearchResult(
    resultType: SearchResultType,
    name: string,
    description: string,
    category: string,
    hotkey: string,
    appShortcut: Option<AppShortcut>,
    clipboardShortcut: Option<ClipboardShortcut>)

  // ---------------------------------------------------------------------
  // Loading the items
  // ---------------------------------------------------------------------

  /** The description of an application shortcut: the file name of its only
      application, otherwise the number of applications. */
  function AppsDisplay(s: AppShortcut): string {
    if |s.apps| == 1 then FileNameWithoutExtension(s.apps[0].exePath)
    else ApplicationsCount(|s.apps|)
  }

  /** The description names the one application, or carries the number of
      applications in a form that reads back. */
  lemma AppsDisplayDescribesApps(s: AppShortcut)
    ensures var r := AppsDisplay(s);
            && (|s.apps| == 1 ==> r == FileNameWithoutExtension(s.apps[0].exePath))
            && (|s.apps| != 1 ==>
                  |r| > 13 && r[|r| - 13..] == " applications" &&
                  AllDigits(r[..|r| - 13]) && DigitsValue(r[..|r| - 13]) == |s.apps|)
  {
    if |s.apps| != 1 {
      ApplicationsCountRoundTrip(|s.apps|);
    }
  }

  /** Line breaks turned into spaces: first CR LF pairs, then lone LFs. */
  function JoinLines(s: string): (r: string)
    ensures '\n' !in r
    ensures |r| <= |s|
    ensures '\n' !in s ==> r == s
  {
    var t := ReplaceAll(s, "\r\n", " ");
    ReplaceAllNoLonger(s, "\r\n", " ");
    ReplaceCharByChar(t, '\n', ' ');
    assert "\n" == ['\n'] && " " == [' '];
    var r := ReplaceAll(t, "\n", " ");
    assert '\n' !in s ==> !Contains(s, "\r\n") by {
      if Contains(s, "\r\n") {
        var i :| 0 <= i <= |s| - 2 && OccursAt(s, "\r\n", i);
        assert s[i] == "\r\n"[0] && s[i + 1] == "\r\n"[1];
      }
    }
    r
  }

  /** Without carriage returns, each line feed becomes a space and every
      other character stays where it was. */
  lemma JoinLinesWithoutCarriageReturns(s: string)
    requires '\r' !in s
    ensures var r := JoinLines(s);
            |r| == |s| && forall i :: 0 <= i < |s| ==> r[i] == (if s[i] == '\n' then ' ' else s[i])
  {
    forall i | 0 <= i <= |s| - 2
      ensures !OccursAt(s, "\r\n", i)
    {
      assert s[i] in s && s[i..i + 2][0] == s[i];
    }
    assert "\n" == ['\n'] && " " == [' '];
    ReplaceCharByChar(s, '\n', ' ');
  }

  /** The same text made in one left-to-right scan: a CR LF pair and a lone
      LF each become one space, every other character stays. */
  function LinesJoined(s: string): (r: string)
    decreases |s|
  {
    if |s| == 0 then ""
    else if |s| >= 2 && s[0] == '\r' && s[1] == '\n' then " " + LinesJoined(s[2..])
    else if s[0] == '\n' then " " + LinesJoined(s[1..])
    else [s[0]] + LinesJoined(s[1..])
  }

  /** `JoinLines`' two passes agree with the one-scan reading. */
  lemma {:induction false} JoinLinesIsLinesJoined(s: string)
    ensures JoinLines(s) == LinesJoined(s)
    decreases |s|
  {
    var t := ReplaceAll(s, "\r\n", " ");
    assert "\n" == ['\n'] && " " == [' '];
    ReplaceCharByChar(t, '\n', ' ');
    assert JoinLines(s) == ReplaceAll(t, "\n", " ");
    if |s| == 0 {
    } else if |s| >= 2 && s[0] == '\r' && s[1] == '\n' {
      ReplaceAtOccurrence(s, "\r\n", " ");
      var t' := ReplaceAll(s[2..], "\r\n", " ");
      assert t == " " + t';
      ReplaceCharByChar(t', '\n', ' ');
      JoinLinesIsLinesJoined(s[2..]);
      assert JoinLines(s[2..]) == ReplaceAll(t', "\n", " ");
      assert ReplaceAll(t, "\n", " ") == " " + ReplaceAll(t', "\n", " ");
    } else {
      var t' := ReplaceAll(s[1..], "\r\n", " ");
      if |s| >= 2 {
        assert s[..2] != "\r\n";
        ReplaceAtMismatch(s, "\r\n", " ");
      }
      assert t == [s[0]] + t';
      ReplaceCharByChar(t', '\n', ' ');
      JoinLinesIsLinesJoined(s[1..]);
      assert JoinLines(s[1..]) == ReplaceAll(t', "\n", " ");
      assert ReplaceAll(t, "\n", " ") == [if s[0] == '\n' then ' ' else s[0]] + ReplaceAll(t', "\n", " ");
    }
  }

  /** The description of a clipboard shortcut: its content on one line, cut
      to 50 characters plus "..." when longer. */
  function Preview(content: string): (r: string)
    ensures '\n' !in r
    ensures |r| <= 53
    ensures |content| > 50 ==> r == JoinLines(content[..50]) + "..."
    ensures |content| <= 50 ==> r == JoinLines(content)
    ensures |content| <= 50 && '\n' !in content ==> r == content
  {
    if |content| > 50 then JoinLines(content[..50]) + "..." else JoinLines(content)
  }

  function AppResult(s: AppShortcut): SearchResult {
    SearchResult(AppShortcutResult, s.name, AppsDisplay(s), s.category, s.keyDisplayName,
                 Some(s), None)
  }

  function ClipResult(c: ClipboardShortcut): SearchResult {
    SearchResult(ClipboardShortcutResult, c.name, Preview(c.content), c.category,
                 c.keyDisplayName, None, Some(c))
  }

  predicate AppEnabled(s: AppShortcut) { s.isEnabled }

  predicate ClipEnabled(c: ClipboardShortcut) { c.isEnabled }

  /** The palette's items: the enabled application shortcuts, then the
      enabled clipboard shortcuts, each in settings order. */
  function LoadAllItems(settings: Settings): (r: seq<SearchResult>)
    ensures var apps := Filter(settings.shortcuts, AppEnabled);
            var clips := Filter(settings.clipboardShortcuts, ClipEnabled);
            && |r| == |apps| + |clips|
            && (forall i :: 0 <= i < |apps| ==> r[i] == AppResult(apps[i]))
            && (forall i :: 0 <= i < |clips| ==> r[|apps| + i] == ClipResult(clips[i]))
  {
    var apps := Filter(settings.shortcuts, AppEnabled);
    var clips := Filter(settings.clipboardShortcuts, ClipEnabled);
    seq(|apps|, i requires 0 <= i < |apps| => AppResult(apps[i]))
      + seq(|clips|, i requires 0 <= i < |clips| => ClipResult(clips[i]))
  }

  /** Every item is an enabled shortcut of the settings, and application
      items come first. */
  lemma LoadAllItemsAreEnabled(settings: Settings)
    ensures var r := LoadAllItems(settings);
            && (forall i :: 0 <= i < |r| && r[i].resultType == AppShortcutResult ==>
                  r[i].appShortcut.Some? && r[i].appShortcut.value in settings.shortcuts
                  && r[i].appShortcut.value.isEnabled)
            && (forall i :: 0 <= i < |r| && r[i].resultType == ClipboardShortcutResult ==>
                  r[i].clipboardShortcut.Some? && r[i].clipboardShortcut.value in settings.clipboardShortcuts
                  && r[i].clipboardShortcut.value.isEnabled)
            && (forall i, j :: 0 <= i < j < |r| && r[j].resultType == AppShortcutResult ==>
                  r[i].resultType == AppShortcutResult)
  {
    var r := LoadAllItems(settings);
    var apps := Filter(settings.shortcuts, AppEnabled);
    var clips := Filter(settings.clipboardShortcuts, ClipEnabled);
    forall i | 0 <= i < |r| && i < |apps|
      ensures r[i] == AppResult(apps[i]) && apps[i] in settings.shortcuts && apps[i].isEnabled
    {
      LoadAllAppAt(settings, i);
    }
    forall i | |apps| <= i < |r|
      ensures r[i] == ClipResult(clips[i - |apps|]) && clips[i - |apps|] in settings.clipboardShortcuts
              && clips[i - |apps|].isEnabled
    {
      LoadAllClipAt(settings, i - |apps|);
    }
  }

  /** Application item `k` is the `k`-th enabled application shortcut. */
  lemma LoadAllAppAt(settings: Settings, k: nat)
    requires k < |Filter(settings.shortcuts, AppEnabled)|
    ensures var apps := Filter(settings.shortcuts, AppEnabled);
            LoadAllItems(settings)[k] == AppResult(apps[k]) && apps[k] in settings.shortcuts && apps[k].isEnabled
  {
    FilteredAt(settings.shortcuts, AppEnabled, k);
  }

  /** Clipboard item `k`, after the applications, is the `k`-th enabled
      clipboard shortcut. */
  lemma LoadAllClipAt(settings: Settings, k: nat)
    requires k < |Filter(settings.clipboardShortcuts, ClipEnabled)|
    ensures var apps := Filter(settings.shortcuts, AppEnabled);
            var clips := Filter(settings.clipboardShortcuts, ClipEnabled);
            |apps| + k < |LoadAllItems(settings)| &&
            LoadAllItems(settings)[|apps| + k] == ClipResult(clips[k]) &&
            clips[k] in settings.clipboardShortcuts && clips[k].isEnabled
  {
    FilteredAt(settings.clipboardShortcuts, ClipEnabled, k);
  }

  /** Item `k` of a filtered list is an item of the list that passes. */
  lemma FilteredAt<T>(a: seq<T>, keep: T -> bool, k: nat)
    requires k < |Filter(a, keep)|
    ensures Filter(a, keep)[k] in a && keep(Filter(a, keep)[k])
  {
    assert Filter(a, keep)[k] in Filter(a, keep);
  }

  /** Every enabled shortcut of the settings is listed. */
  lemma LoadAllItemsListsEveryEnabled(settings: Settings)
    ensures forall k :: 0 <= k < |settings.shortcuts| && settings.shortcuts[k].isEnabled ==>
              AppResult(settings.shortcuts[k]) in LoadAllItems(settings)
    ensures forall k :: 0 <= k < |settings.clipboardShortcuts| && settings.clipboardShortcuts[k].isEnabled ==>
              ClipResult(settings.clipboardShortcuts[k]) in LoadAllItems(settings)
  {
    var r := LoadAllItems(settings);
    var apps := Filter(settings.shortcuts, AppEnabled);
    var clips := Filter(settings.clipboardShortcuts, ClipEnabled);
    forall k | 0 <= k < |settings.shortcuts| && settings.shortcuts[k].isEnabled
      ensures AppResult(settings.shortcuts[k]) in r
    {
      FilterKeeps(settings.shortcuts, AppEnabled, k);
      var m :| 0 <= m < |apps| && apps[m] == settings.shortcuts[k];
      assert r[m] == AppResult(apps[m]);
    }
    forall k | 0 <= k < |settings.clipboardShortcuts| && settings.clipboardShortcuts[k].isEnabled
      ensures ClipResult(settings.clipboardShortcuts[k]) in r
    {
      FilterKeeps(settings.clipboardShortcuts, ClipEnabled, k);
      var m :| 0 <= m < |clips| && clips[m] == settings.clipboardShortcuts[k];
      assert r[|apps| + m] == ClipResult(clips[m]);
    }
  }

  // ---------------------------------------------------------------------
  // Fuzzy score
  // ---------------------------------------------------------------------

  /** Points and number of query characters matched by the subsequence scan
      over the name. */
  datatype ScanResult = ScanResult(points: nat, matched: nat)

  /** The character-by-character scan from one state on: a matching
      character scores 5 right after another match and 1 otherwise, and a
      mismatch breaks the run. */
  function Scan(name: string, query: string, consecutive: bool): (r: ScanResult)
    ensures r.matched <= |query|
    ensures r.matched <= r.points <= 5 * r.matched
    decreases |name|
  {
    if |name| == 0 || |query| == 0 then ScanResult(0, 0)
    else if name[0] == query[0] then
      var t := Scan(name[1..], query[1..], true);
      ScanResult(t.points + (if consecutive then 5 else 1), t.matched + 1)
    else Scan(name[1..], query, false)
  }

  /** The score of an item for a query that is already lower case. */
  function FuzzyScore(query: string, item: SearchResult): (r: int)
    ensures r >= 0
  {
    var name := Lower(item.name);
    var scan := Scan(name, query, false);
    (if Contains(name, query) then 100 else 0)
      + (if StartsWith(name, query) then 50 else 0)
      + (if Contains(Lower(item.description), query) then 30 else 0)
      + (if Contains(Lower(item.category), query) then 20 else 0)
      + scan.points
      + (if scan.matched == |query| then 10 else 0)
  }

  /** `CalculateFuzzyScore`: the substring bonuses, then the scan. */
  method CalculateFuzzyScore(query: string, item: SearchResult) returns (score: int)
    ensures score == FuzzyScore(query, item)
  {
    score := 0;
    var name := Lower(item.name);
    var description := Lower(item.description);
    var category := Lower(item.category);
    if Contains(name, query) {
      score := score + 100;
    }
    if StartsWith(name, query) {
      score := score + 50;
    }
    if Contains(description, query) {
      score := score + 30;
    }
    if Contains(category, query) {
      score := score + 20;
    }
    var points, queryIndex := ScanLoop(name, query);
    score := score + points;
    if queryIndex == |query| {
      score := score + 10;
    }
  }

  /** The scanning loop of `CalculateFuzzyScore`: it walks the name once,
      advancing in the query on each match. */
  method ScanLoop(name: string, query: string) returns (points: int, queryIndex: int)
    ensures points == Scan(name, query, false).points
    ensures queryIndex == Scan(name, query, false).matched
  {
    points := 0;
    var nameIndex := 0;
    queryIndex := 0;
    var consecutive := false;
    while nameIndex < |name| && queryIndex < |query|
      invariant 0 <= nameIndex <= |name| && 0 <= queryIndex <= |query|
      invariant points + Scan(name[nameIndex..], query[queryIndex..], consecutive).points
             == Scan(name, query, false).points
      invariant queryIndex + Scan(name[nameIndex..], query[queryIndex..], consecutive).matched
             == Scan(name, query, false).matched
      decreases |name| - nameIndex
    {
      assert name[nameIndex..][1..] == name[nameIndex + 1..];
      if name[nameIndex] == query[queryIndex] {
        assert query[queryIndex..][1..] == query[queryIndex + 1..];
        points := points + if consecutive then 5 else 1;
        consecutive := true;
        queryIndex := queryIndex + 1;
      } else {
        consecutive := false;
      }
      nameIndex := nameIndex + 1;
    }
  }

  /** `idx` lists strictly increasing positions of `name` that spell
      `query`. */
  predicate Embeds(query: string, name: string, idx: seq<nat>) {
    && |idx| == |query|
    && (forall k :: 0 <= k < |idx| ==> idx[k] < |name| && name[idx[k]] == query[k])
    && (forall k :: 0 < k < |idx| ==> idx[k - 1] < idx[k])
  }

  /** `query` can be read off `name` left to right, skipping characters. */
  ghost predicate IsSubsequence(query: string, name: string) {
    exists idx :: Embeds(query, name, idx)
  }

  function Shift(idx: seq<nat>): (r: seq<nat>)
    ensures |r| == |idx| && forall k :: 0 <= k < |idx| ==> r[k] == idx[k] + 1
  {
    seq(|idx|, k requires 0 <= k < |idx| => idx[k] + 1)
  }

  function Unshift(idx: seq<nat>): (r: seq<nat>)
    requires forall k :: 0 <= k < |idx| ==> idx[k] > 0
    ensures |r| == |idx| && forall k :: 0 <= k < |idx| ==> r[k] == idx[k] - 1
  {
    seq(|idx|, k requires 0 <= k < |idx| => idx[k] - 1)
  }

  /** A full greedy match yields positions spelling the query. */
  lemma {:induction false} GreedyWitness(name: string, query: string, consecutive: bool)
    returns (idx: seq<nat>)
    requires Scan(name, query, consecutive).matched == |query|
    ensures Embeds(query, name, idx)
    decreases |name|
  {
    if |query| == 0 {
      idx := [];
    } else if name[0] == query[0] {
      var tail := GreedyWitness(name[1..], query[1..], true);
      idx := [0] + Shift(tail);
    } else {
      var tail := GreedyWitness(name[1..], query, false);
      idx := Shift(tail);
    }
  }

  /** If the query is a subsequence of the name, the greedy scan matches all
      of it. */
  lemma {:induction false} GreedyComplete(name: string, query: string, consecutive: bool, idx: seq<nat>)
    requires Embeds(query, name, idx)
    ensures Scan(name, query, consecutive).matched == |query|
    decreases |name|
  {
    if |query| > 0 {
      assert idx[0] < |name|;
      if name[0] == query[0] {
        assert forall k :: 0 < k < |idx| ==> idx[k] > idx[0] by {
          IncreasingFrom(idx, 0);
        }
        var tail := Unshift(idx[1..]);
        assert Embeds(query[1..], name[1..], tail);
        GreedyComplete(name[1..], query[1..], true, tail);
      } else {
        assert idx[0] > 0;
        assert forall k :: 0 <= k < |idx| ==> idx[k] >= idx[0] by {
          IncreasingFrom(idx, 0);
        }
        var tail := Unshift(idx);
        assert Embeds(query, name[1..], tail);
        GreedyComplete(name[1..], query, false, tail);
      }
    }
  }

  /** Positions that increase step by step increase overall. */
  lemma {:induction false} IncreasingFrom(idx: seq<nat>, i: nat)
    requires i < |idx|
    requires forall k :: 0 < k < |idx| ==> idx[k - 1] < idx[k]
    ensures forall k :: i < k < |idx| ==> idx[i] < idx[k]
    decreases |idx| - i
  {
    if i + 1 < |idx| {
      IncreasingFrom(idx, i + 1);
    }
  }

  /** The whole-query bonus is earned exactly when the query is a
      subsequence of the lower-cased name. */
  lemma ScanMatchesAllIffSubsequence(name: string, query: string)
    ensures Scan(name, query, false).matched == |query| <==> IsSubsequence(query, name)
  {
    if Scan(name, query, false).matched == |query| {
      var idx := GreedyWitness(name, query, false);
    }
    if IsSubsequence(query, name) {
      var idx :| Embeds(query, name, idx);
      GreedyComplete(name, query, false, idx);
    }
  }

  /** A substring is a subsequence. */
  lemma ContainsIsSubsequence(name: string, query: string)
    requires Contains(name, query)
    ensures IsSubsequence(query, name)
  {
    var i :| 0 <= i <= |name| - |query| && OccursAt(name, query, i);
    var idx := seq(|query|, k requires 0 <= k < |query| => i + k);
    forall k | 0 <= k < |query|
      ensures idx[k] < |name| && name[idx[k]] == query[k]
    {
      assert name[i..i + |query|][k] == name[i + k];
    }
    assert Embeds(query, name, idx);
  }

  /** The scan matches something exactly when the query's first character
      occurs in the name. */
  lemma {:induction false} ScanMatchesSome(name: string, query: string, consecutive: bool)
    ensures Scan(name, query, consecutive).matched > 0 <==> |query| > 0 && query[0] in name
    decreases |name|
  {
    if |name| > 0 && |query| > 0 && name[0] != query[0] {
      ScanMatchesSome(name[1..], query, false);
      assert query[0] in name <==> query[0] in name[1..] by {
        assert name == [name[0]] + name[1..];
      }
    }
  }

  /** A name starting with the query is matched in one run: 1 point for
      the first character and 5 for each following one. */
  lemma {:induction false} ScanOfPrefix(name: string, query: string, consecutive: bool)
    requires |query| > 0 && StartsWith(name, query)
    ensures Scan(name, query, consecutive)
         == ScanResult((if consecutive then 5 else 1) + 5 * (|query| - 1), |query|)
    decreases |query|
  {
    assert name[0] == query[0];
    if |query| > 1 {
      assert StartsWith(name[1..], query[1..]) by {
        assert name[1..][..|query| - 1] == name[..|query|][1..];
      }
      ScanOfPrefix(name[1..], query[1..], true);
    }
  }

  /** An item is scored above zero exactly when the query is empty, its first
      character occurs in the lower-cased name, or the query occurs in the
      lower-cased description or category. */
  lemma ScoreIsPositive(query: string, item: SearchResult)
    ensures FuzzyScore(query, item) > 0 <==>
              || |query| == 0
              || query[0] in Lower(item.name)
              || Contains(Lower(item.description), query)
              || Contains(Lower(item.category), query)
  {
    var name := Lower(item.name);
    ScanMatchesSome(name, query, false);
    if |query| > 0 && Contains(name, query) {
      var i :| 0 <= i <= |name| - |query| && OccursAt(name, query, i);
      assert name[i] == name[i..i + |query|][0];
    }
    if |query| > 0 && StartsWith(name, query) {
      assert name[0] == name[..|query|][0];
    }
  }

  /** A name containing the query scores at least 110 plus one point per
      query character; a name starting with it scores at least 160 plus the
      run bonus. */
  lemma NameMatchScores(query: string, item: SearchResult)
    ensures Contains(Lower(item.name), query) ==> FuzzyScore(query, item) >= 110 + |query|
    ensures |query| > 0 && StartsWith(Lower(item.name), query) ==>
              FuzzyScore(query, item) >= 160 + 5 * |query| - 4
  {
    var name := Lower(item.name);
    if Contains(name, query) {
      ContainsIsSubsequence(name, query);
      ScanMatchesAllIffSubsequence(name, query);
    }
    if |query| > 0 && StartsWith(name, query) {
      StartsWithContains(name, query);
      ScanOfPrefix(name, query, false);
    }
  }

  // ---------------------------------------------------------------------
  // Fuzzy search
  // ---------------------------------------------------------------------

  /** An item paired with its score. */
  type Scored = (SearchResult, int)

  function ScoreAll(query: string, items: seq<SearchResult>): (r: seq<Scored>)
    ensures |r| == |items|
    ensures forall i :: 0 <= i < |r| ==> r[i] == (items[i], FuzzyScore(query, items[i]))
  {
    seq(|items|, i requires 0 <= i < |items| => (items[i], FuzzyScore(query, items[i])))
  }

  predicate Positive(x: Scored) { x.1 > 0 }

  /** The key order of `OrderByDescending(x => x.score)`. */
  predicate ByScoreDescending(x: Scored, y: Scored) { x.1 >= y.1 }

  lemma ByScoreDescendingIsPreorder()
    ensures TotalPreorder(ByScoreDescending)
  {
  }

  /** The items of a query's search before sorting: each item with a
      positive score, in list order. */
  function Kept(searchText: string, items: seq<SearchResult>): (r: seq<Scored>)
    ensures forall i :: 0 <= i < |r| ==>
              r[i].0 in items && r[i].1 == FuzzyScore(Lower(searchText), r[i].0) && r[i].1 > 0
  {
    var all := ScoreAll(Lower(searchText), items);
    var r := Filter(all, Positive);
    assert forall i :: 0 <= i < |r| ==> r[i] in all;
    r
  }

  function Results(s: seq<Scored>): (r: seq<SearchResult>)
    ensures |r| == |s| && forall i :: 0 <= i < |s| ==> r[i] == s[i].0
  {
    seq(|s|, i requires 0 <= i < |s| => s[i].0)
  }

  /** `FuzzySearch`: the items scoring above zero for the lower-cased query,
      best first. */
  function FuzzySearch(searchText: string, items: seq<SearchResult>): (r: seq<SearchResult>)
    ensures forall i :: 0 <= i < |r| ==> r[i] in items && FuzzyScore(Lower(searchText), r[i]) > 0
    ensures forall i :: 0 <= i < |items| && FuzzyScore(Lower(searchText), items[i]) > 0 ==> items[i] in r
    ensures forall i, j :: 0 <= i < j < |r| ==>
              FuzzyScore(Lower(searchText), r[i]) >= FuzzyScore(Lower(searchText), r[j])
  {
    var kept := Kept(searchText, items);
    var sorted := SortBy(kept, ByScoreDescending);
    var r := Results(sorted);
    FuzzySearchFacts(searchText, items, kept, sorted, r);
    r
  }

  lemma FuzzySearchFacts(searchText: string, items: seq<SearchResult>, kept: seq<Scored>,
                         sorted: seq<Scored>, r: seq<SearchResult>)
    requires kept == Kept(searchText, items)
    requires sorted == SortBy(kept, ByScoreDescending) && r == Results(sorted)
    ensures forall i :: 0 <= i < |r| ==> r[i] in items && FuzzyScore(Lower(searchText), r[i]) > 0
    ensures forall i :: 0 <= i < |items| && FuzzyScore(Lower(searchText), items[i]) > 0 ==> items[i] in r
    ensures forall i, j :: 0 <= i < j < |r| ==>
              FuzzyScore(Lower(searchText), r[i]) >= FuzzyScore(Lower(searchText), r[j])
  {
    var q := Lower(searchText);
    forall i | 0 <= i < |r|
      ensures r[i] in items && FuzzyScore(q, r[i]) > 0 && sorted[i].1 == FuzzyScore(q, r[i])
    {
      assert sorted[i] in kept;
    }
    forall k | 0 <= k < |items| && FuzzyScore(q, items[k]) > 0
      ensures items[k] in r
    {
      var all := ScoreAll(q, items);
      assert Positive(all[k]);
      FilterKeeps(all, Positive, k);
      assert all[k] in kept;
      var m :| 0 <= m < |kept| && kept[m] == all[k];
      assert kept[m] in sorted;
      var i :| 0 <= i < |sorted| && sorted[i] == all[k];
      assert r[i] == items[k];
    }
    ByScoreDescendingIsPreorder();
    SortByCorrect(kept, ByScoreDescending);
  }

  /** Equal scores keep the list order: the result reads the kept items
      through a permutation of their positions that puts higher scores first
      and, among equal scores, earlier items first. */
  lemma FuzzySearchIsStable(searchText: string, items: seq<SearchResult>)
    ensures var kept := Kept(searchText, items);
            var p := SortPositions(kept, ByScoreDescending, |kept|);
            && multiset(p) == multiset(Range(|kept|))
            && FuzzySearch(searchText, items) == Results(Pick(kept, p))
            && (forall i, j :: 0 <= i < j < |p| ==> kept[p[i]].1 >= kept[p[j]].1)
            && (forall i, j :: 0 <= i < j < |p| && kept[p[i]].1 == kept[p[j]].1 ==> p[i] < p[j])
  {
    var kept := Kept(searchText, items);
    ByScoreDescendingIsPreorder();
    SortByCorrect(kept, ByScoreDescending);
  }

  // ---------------------------------------------------------------------
  // Grouping by category
  // ---------------------------------------------------------------------

  /** Ordinal string order: character codes compared left to right, a
      proper prefix first. */
  predicate StrLe(a: string, b: string)
    decreases |a|
  {
    if |a| == 0 then true
    else if |b| == 0 then false
    else if a[0] != b[0] then a[0] < b[0]
    else StrLe(a[1..], b[1..])
  }

  lemma {:induction false} StrLeReflexive(a: string)
    ensures StrLe(a, a)
    decreases |a|
  {
    if |a| > 0 {
      StrLeReflexive(a[1..]);
    }
  }

  lemma {:induction false} StrLeTotal(a: string, b: string)
    ensures StrLe(a, b) || StrLe(b, a)
    decreases |a|
  {
    if |a| > 0 && |b| > 0 && a[0] == b[0] {
      StrLeTotal(a[1..], b[1..]);
    }
  }

  lemma {:induction false} StrLeTransitive(a: string, b: string, c: string)
    requires StrLe(a, b) && StrLe(b, c)
    ensures StrLe(a, c)
    decreases |a|
  {
    if |a| > 0 && |b| > 0 && |c| > 0 && a[0] == b[0] && b[0] == c[0] {
      StrLeTransitive(a[1..], b[1..], c[1..]);
    }
  }

  lemma {:induction false} StrLeAntisymmetric(a: string, b: string)
    requires StrLe(a, b) && StrLe(b, a)
    ensures a == b
    decreases |a|
  {
    if |a| > 0 {
      StrLeAntisymmetric(a[1..], b[1..]);
      assert a == [a[0]] + a[1..] && b == [b[0]] + b[1..];
    }
  }

  lemma StrLeIsPreorder()
    ensures TotalPreorder(StrLe)
  {
    forall x, y
      ensures StrLe(x, y) || StrLe(y, x)
    {
      StrLeTotal(x, y);
    }
    forall x, y, z | StrLe(x, y) && StrLe(y, z)
      ensures StrLe(x, z)
    {
      StrLeTransitive(x, y, z);
    }
  }

  /** The categories of the items, in item order. */
  function CategoriesOf(items: seq<SearchResult>): (r: seq<string>)
    ensures |r| == |items| && forall i :: 0 <= i < |items| ==> r[i] == items[i].category
  {
    seq(|items|, i requires 0 <= i < |items| => items[i].category)
  }

  predicate Distinct(s: seq<string>) {
    forall i, j :: 0 <= i < j < |s| ==> s[i] != s[j]
  }

  /** The keys of `GroupBy(r => r.Category)`: each category once, in order
      of first occurrence. */
  function GroupKeys(items: seq<SearchResult>): (r: seq<string>)
    ensures Distinct(r)
    ensures forall c :: c in r <==> c in CategoriesOf(items)
    decreases |items|
  {
    if |items| == 0 then []
    else
      var init := items[..|items| - 1];
      var keys := GroupKeys(init);
      var c := items[|items| - 1].category;
      assert CategoriesOf(items) == CategoriesOf(init) + [c];
      if c in keys then keys else keys + [c]
  }

  /** The item filter of one group. */
  function InCategory(c: string): SearchResult -> bool {
    (x: SearchResult) => x.category == c
  }

  /** The groups of `keys`, one after another. */
  function Groups(keys: seq<string>, items: seq<SearchResult>): (r: seq<SearchResult>)
    ensures forall i :: 0 <= i < |r| ==> r[i] in items && r[i].category in keys
    decreases |keys|
  {
    if |keys| == 0 then []
    else Filter(items, InCategory(keys[0])) + Groups(keys[1..], items)
  }

  /** The list shown for a blank query: the groups in ascending key
      order. */
  function GroupedByCategory(items: seq<SearchResult>): (r: seq<SearchResult>)
  {
    Groups(SortBy(GroupKeys(items), StrLe), items)
  }

  /** Filtering a group by a category keeps it whole or empties it. */
  lemma FilterGroup(items: seq<SearchResult>, k: string, c: string)
    ensures Filter(Filter(items, InCategory(k)), InCategory(c))
         == if k == c then Filter(items, InCategory(c)) else []
  {
    var g := Filter(items, InCategory(k));
    if k == c {
      FilterAll(g, InCategory(c));
    } else {
      FilterNone(g, InCategory(c));
    }
  }

  /** The items of one category appear in `Groups` as they do in the input,
      when the keys are distinct. */
  lemma {:induction false} GroupsOfCategory(keys: seq<string>, items: seq<SearchResult>, c: string)
    requires Distinct(keys)
    ensures Filter(Groups(keys, items), InCategory(c))
         == if c in keys then Filter(items, InCategory(c)) else []
    decreases |keys|
  {
    if |keys| > 0 {
      var g := Filter(items, InCategory(keys[0]));
      FilterAppend(g, Groups(keys[1..], items), InCategory(c));
      FilterGroup(items, keys[0], c);
      assert Distinct(keys[1..]);
      GroupsOfCategory(keys[1..], items, c);
      assert keys == [keys[0]] + keys[1..];
      if keys[0] == c {
        assert c !in keys[1..];
      }
    }
  }

  predicate Ascending(keys: seq<string>) {
    forall i, j :: 0 <= i < j < |keys| ==> StrLe(keys[i], keys[j])
  }

  predicate CategoriesAscending(r: seq<SearchResult>) {
    forall i, j :: 0 <= i < j < |r| ==> StrLe(r[i].category, r[j].category)
  }

  /** `Groups` over ascending keys is in ascending category order. */
  lemma {:induction false} GroupsSorted(keys: seq<string>, items: seq<SearchResult>)
    requires Ascending(keys)
    ensures CategoriesAscending(Groups(keys, items))
    decreases |keys|
  {
    if |keys| > 0 {
      var g := Filter(items, InCategory(keys[0]));
      var rest := Groups(keys[1..], items);
      GroupsSorted(keys[1..], items);
      var r := g + rest;
      assert r == Groups(keys, items);
      forall i, j | 0 <= i < j < |r|
        ensures StrLe(r[i].category, r[j].category)
      {
        if j < |g| {
          assert r[i] == g[i] && r[j] == g[j];
          assert InCategory(keys[0])(g[i]) && InCategory(keys[0])(g[j]);
          StrLeReflexive(keys[0]);
        } else if i < |g| {
          assert r[i] == g[i];
          assert InCategory(keys[0])(g[i]);
          assert r[j] == rest[j - |g|];
          assert r[j].category in keys[1..];
          var m :| 0 <= m < |keys| - 1 && keys[1..][m] == r[j].category;
          assert keys[m + 1] == r[j].category;
          assert StrLe(keys[0], keys[m + 1]);
        } else {
          assert r[i] == rest[i - |g|] && r[j] == rest[j - |g|];
          assert StrLe(rest[i - |g|].category, rest[j - |g|].category);
        }
      }
    }
  }

  /** The list for a blank query is in ascending category order. */
  lemma GroupedByCategorySorted(items: seq<SearchResult>)
    ensures CategoriesAscending(GroupedByCategory(items))
  {
    var keys := GroupKeys(items);
    KeysAscending(keys);
    GroupsSorted(SortBy(keys, StrLe), items);
  }

  /** Sorted keys are in ascending ordinal order. */
  lemma KeysAscending(keys: seq<string>)
    ensures Ascending(SortBy(keys, StrLe))
  {
    StrLeIsPreorder();
    SortByOrdered(keys, StrLe);
  }

  /** For each category, the list for a blank query holds exactly that
      category's items in their original order. With the ascending order
      above, this fixes the list. */
  lemma GroupedByCategoryKeepsEachCategory(items: seq<SearchResult>, c: string)
    ensures Filter(GroupedByCategory(items), InCategory(c)) == Filter(items, InCategory(c))
  {
    var keys := GroupKeys(items);
    var sorted := SortBy(keys, StrLe);
    assert Distinct(sorted) by {
      SortByDistinct(keys, StrLe);
    }
    GroupsOfCategory(sorted, items, c);
    assert GroupedByCategory(items) == Groups(sorted, items);
    if c !in sorted {
      NoGroupNoItems(items, keys, sorted, c);
    }
  }

  /** A category missing from the sorted keys has no items. */
  lemma NoGroupNoItems(items: seq<SearchResult>, keys: seq<string>, sorted: seq<string>, c: string)
    requires keys == GroupKeys(items) && sorted == SortBy(keys, StrLe)
    requires c !in sorted
    ensures Filter(items, InCategory(c)) == []
  {
    assert c !in keys;
    forall i | 0 <= i < |items|
      ensures !InCategory(c)(items[i])
    {
      assert CategoriesOf(items)[i] == items[i].category;
    }
    FilterNone(items, InCategory(c));
  }

  // ---------------------------------------------------------------------
  // The list and its selection
  // ---------------------------------------------------------------------

  /** The palette's state: the loaded items, the list shown, the list box's
      selected index (-1 for none) and what the dialog returns. */
  datatype Palette = Palette(
    allResults: seq<SearchResult>,
    shown: seq<SearchResult>,
    selectedIndex: int,
    selectedAppShortcut: Option<AppShortcut>,
    selectedClipboardShortcut: Option<ClipboardShortcut>,
    dialogOk: bool,
    closed: bool)

  /** A list box's selection: none exactly when the list is empty. */
  predicate ValidSelection(p: Palette) {
    if |p.shown| == 0 then p.selectedIndex == -1 else 0 <= p.selectedIndex < |p.shown|
  }

  /** The list for a search text: every item grouped by category for a
      blank text, else the best 20 fuzzy matches; the first line is
      selected. */
  function RefreshResults(p: Palette, searchText: string): (r: Palette)
    ensures r.(shown := p.shown, selectedIndex := p.selectedIndex) == p
    ensures IsBlank(searchText) ==> r.shown == GroupedByCategory(p.allResults)
    ensures !IsBlank(searchText) ==> r.shown == Take(FuzzySearch(searchText, p.allResults), 20)
    ensures ValidSelection(r) && (|r.shown| > 0 ==> r.selectedIndex == 0)
  {
    var shown := if IsBlank(searchText) then GroupedByCategory(p.allResults)
                 else Take(FuzzySearch(searchText, p.allResults), 20);
    p.(shown := shown, selectedIndex := if |shown| > 0 then 0 else -1)
  }

  /** A non-blank query shows at most 20 items, all of them matches. */
  lemma SearchShowsAtMostTwenty(p: Palette, searchText: string)
    requires !IsBlank(searchText)
    ensures var r := RefreshResults(p, searchText);
            && |r.shown| <= 20
            && forall i :: 0 <= i < |r.shown| ==>
                 r.shown[i] in p.allResults && FuzzyScore(Lower(searchText), r.shown[i]) > 0
  {
  }

  /** The palette as opened: the items loaded and the blank-query list. */
  function Open(settings: Settings): (r: Palette)
    ensures r.allResults == LoadAllItems(settings)
    ensures r.shown == GroupedByCategory(LoadAllItems(settings))
    ensures ValidSelection(r) && !r.closed && !r.dialogOk
    ensures r.selectedAppShortcut == None && r.selectedClipboardShortcut == None
  {
    RefreshResults(Palette(LoadAllItems(settings), [], -1, None, None, false, false), "")
  }

  /** Enter or a double click: with a line selected, its shortcut becomes
      the dialog's result and the palette closes; with none, nothing
      happens. */
  function ExecuteSelectedItem(p: Palette): (r: Palette)
    requires ValidSelection(p)
    ensures p.selectedIndex < 0 ==> r == p
    ensures p.selectedIndex >= 0 ==>
              var item := p.shown[p.selectedIndex];
              && r.closed && r.dialogOk
              && r.shown == p.shown && r.allResults == p.allResults
              && (item.resultType == AppShortcutResult ==>
                    r.selectedAppShortcut == item.appShortcut
                    && r.selectedClipboardShortcut == p.selectedClipboardShortcut)
              && (item.resultType == ClipboardShortcutResult ==>
                    r.selectedClipboardShortcut == item.clipboardShortcut
                    && r.selectedAppShortcut == p.selectedAppShortcut)
  {
    if p.selectedIndex < 0 then p
    else
      var item := p.shown[p.selectedIndex];
      match item.resultType
      case AppShortcutResult =>
        p.(selectedAppShortcut := item.appShortcut, dialogOk := true, closed := true)
      case ClipboardShortcutResult =>
        p.(selectedClipboardShortcut := item.clipboardShortcut, dialogOk := true, closed := true)
  }

  datatype Key = Down | Up | Enter | Escape | OtherKey

  /** A key pressed in the search box. */
  function SearchBoxKeyDown(p: Palette, key: Key): (r: Palette)
    requires ValidSelection(p)
    ensures ValidSelection(r)
    ensures r.shown == p.shown && r.allResults == p.allResults
    ensures key == Down && |p.shown| > 0 ==>
              r.selectedIndex == if p.selectedIndex + 1 < |p.shown| then p.selectedIndex + 1 else p.selectedIndex
    ensures key == Up && |p.shown| > 0 ==>
              r.selectedIndex == if p.selectedIndex > 0 then p.selectedIndex - 1 else 0
    ensures key == Down || key == Up ==> r == p.(selectedIndex := r.selectedIndex)
    ensures (key == Down || key == Up) && |p.shown| == 0 ==> r == p
    ensures key == Enter ==> r == ExecuteSelectedItem(p)
    ensures key == Escape ==> r == p.(closed := true)
    ensures key == OtherKey ==> r == p
  {
    match key
    case Down =>
      if |p.shown| > 0 then
        var next := p.selectedIndex + 1;
        p.(selectedIndex := if next < |p.shown| - 1 then next else |p.shown| - 1)
      else p
    case Up =>
      if |p.shown| > 0 then
        var prev := p.selectedIndex - 1;
        p.(selectedIndex := if prev > 0 then prev else 0)
      else p
    case Enter => ExecuteSelectedItem(p)
    case Escape => p.(closed := true)
    case OtherKey => p
  }

  /** Any sequence of key presses keeps the selection inside the list, and
      pressing Down n times from the top selects line min(n, count-1). */
  lemma {:induction false} DownRepeated(p: Palette, n: nat)
    requires ValidSelection(p) && |p.shown| > 0 && p.selectedIndex == 0
    ensures var r := PressDown(p, n);
            ValidSelection(r) && r.selectedIndex == if n < |p.shown| then n else |p.shown| - 1
    decreases n
  {
    if n > 0 {
      DownRepeated(p, n - 1);
    }
  }

  function PressDown(p: Palette, n: nat): (r: Palette)
    requires ValidSelection(p)
    ensures ValidSelection(r) && r.shown == p.shown
    decreases n
  {
    if n == 0 then p else SearchBoxKeyDown(PressDown(p, n - 1), Down)
  }
}
