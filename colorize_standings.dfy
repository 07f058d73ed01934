/** The standings colouriser: attempt counts read from cell titles, the cookie
    that remembers a highlighted language, the CSS class of a language, and the
    detection of the languages used on a standings page. */
module ColorizeStandings {
  import opened Wrappers
  import opened Sequences
  import opened Sorting
  import opened Text

  // ------------------------------------------------------------ attempt counts

  /** Index of the last `c` strictly before position `before`, or -1. */
  function LastIndexBefore(s: string, c: char, before: int): (i: int)
    requires 0 <= before <= |s|
    ensures -1 <= i < before
    ensures i >= 0 ==> s[i] == c
    ensures forall k :: i < k < before ==> s[k] != c
    decreases before
  {
    if before == 0 then -1
    else if s[before - 1] == c then before - 1
    else LastIndexBefore(s, c, before - 1)
  }

  /** Any index with the three properties above is the one `LastIndexBefore` finds. */
  lemma LastIndexBeforeUnique(s: string, c: char, before: int, i: int)
    requires 0 <= before <= |s| && -1 <= i < before
    requires i >= 0 ==> s[i] == c
    requires forall k :: i < k < before ==> s[k] != c
    ensures LastIndexBefore(s, c, before) == i
  {
  }

  /** The attempts text in a cell title: what lies between the last '+' before
      the last ',' and that ','.  `None` when the last ',' is at the very start
      or missing, or when nothing lies between. */
  function AttemptsIn(title: string): Option<string> {
    var comma := LastIndexBefore(title, ',', |title|);
    if comma <= 0 then None
    else
      var start := LastIndexBefore(title, '+', comma) + 1;
      if start < comma then Some(title[start..comma]) else None
  }

  /** `a` is the attempts text of `title`, found at index `i`: it is not empty,
      holds no '+', is preceded by '+' or by nothing, and is followed by the last
      ',' of the title. */
  predicate AttemptsAt(title: string, i: int, a: string) {
    && 0 <= i && i + |a| < |title|
    && a != [] && '+' !in a
    && title[i..i + |a|] == a
    && title[i + |a|] == ','
    && (forall k :: i + |a| < k < |title| ==> title[k] != ',')
    && (i == 0 || title[i - 1] == '+')
  }

  lemma AttemptsInIsLaidOut(title: string)
    requires AttemptsIn(title).Some?
    ensures AttemptsAt(title, LastIndexBefore(title, '+', LastIndexBefore(title, ',', |title|)) + 1, AttemptsIn(title).value)
  {
    var comma := LastIndexBefore(title, ',', |title|);
    var start := LastIndexBefore(title, '+', comma) + 1;
    var a := AttemptsIn(title).value;
    forall k | 0 <= k < |a| ensures a[k] != '+' {
      assert a[k] == title[start + k];
    }
  }

  lemma LaidOutIsAttemptsIn(title: string, i: int, a: string)
    requires AttemptsAt(title, i, a)
    ensures AttemptsIn(title) == Some(a)
  {
    var c := i + |a|;
    LastIndexBeforeUnique(title, ',', |title|, c);
    assert LastIndexBefore(title, ',', |title|) == c;
    forall k | i - 1 < k < c ensures title[k] != '+' {
      assert title[k] == title[i..c][k - i] == a[k - i];
      assert a[k - i] in a;
    }
    LastIndexBeforeUnique(title, '+', c, i - 1);
    assert title[i..c] == a;
  }

  /** The attempts text is exactly a piece of the title laid out as above. */
  lemma AttemptsInLayout(title: string, a: string)
    ensures AttemptsIn(title) == Some(a) <==> exists i :: AttemptsAt(title, i, a)
  {
    if AttemptsIn(title) == Some(a) {
      AttemptsInIsLaidOut(title);
    }
    if i :| AttemptsAt(title, i, a) {
      LaidOutIsAttemptsIn(title, i, a);
    }
  }

  /** The `.cell-time` text of a cell after `addAttemptCountsVanilla`: the
      attempts appended in parentheses when the title has them and the cell has
      a `.cell-time` child (`None` when it has none). */
  function Annotated(title: string, cellTime: Option<string>): Option<string> {
    match (AttemptsIn(title), cellTime)
    case (Some(a), Some(t)) => Some(t + " (" + a + ")")
    case _ => cellTime
  }

  /** One cell of `addAttemptCountsVanilla`: the two backward scans for ',' and
      '+', then the update of the `.cell-time` text. */
  method AnnotateCell(title: string, cellTime: Option<string>) returns (updated: Option<string>)
    ensures updated == Annotated(title, cellTime)
  {
    updated := cellTime;
    if |title| == 0 {
      return;
    }
    var commaIndex := |title| - 1;
    while commaIndex >= 0 && title[commaIndex] != ','
      invariant -1 <= commaIndex < |title|
      invariant forall k :: commaIndex < k < |title| ==> title[k] != ','
      decreases commaIndex
    {
      commaIndex := commaIndex - 1;
    }
    LastIndexBeforeUnique(title, ',', |title|, commaIndex);
    if commaIndex > 0 {
      var plusIndex := commaIndex - 1;
      while plusIndex >= 0 && title[plusIndex] != '+'
        invariant -1 <= plusIndex < commaIndex
        invariant forall k :: plusIndex < k < commaIndex ==> title[k] != '+'
        decreases plusIndex
      {
        plusIndex := plusIndex - 1;
      }
      LastIndexBeforeUnique(title, '+', commaIndex, plusIndex);
      plusIndex := plusIndex + 1;
      if cellTime.Some? && plusIndex < commaIndex {
        var attempts := title[plusIndex..commaIndex];
        updated := Some(cellTime.value + " (" + attempts + ")");
      }
    }
  }

  /** `addAttemptCountsVanilla(cells)`: every cell's `.cell-time` text, updated
      in place. */
  method AddAttemptCounts(titles: seq<string>, cellTimes: array<Option<string>>)
    requires |titles| == cellTimes.Length
    modifies cellTimes
    ensures forall i :: 0 <= i < cellTimes.Length ==> cellTimes[i] == Annotated(titles[i], old(cellTimes[i]))
  {
    for i := 0 to cellTimes.Length
      invariant forall k :: 0 <= k < i ==> cellTimes[k] == Annotated(titles[k], old(cellTimes[k]))
      invariant forall k :: i <= k < cellTimes.Length ==> cellTimes[k] == old(cellTimes[k])
    {
      cellTimes[i] := AnnotateCell(titles[i], cellTimes[i]);
    }
  }

  // -------------------------------------------------------------------- cookie

  /** `s.indexOf(prefix) === 0`. */
  predicate StartsWith(s: string, prefix: string) {
    |prefix| <= |s| && s[..|prefix|] == prefix
  }

  /** The cookie segment, once trimmed, starts with `name=`. */
  predicate Names(segment: string, name: string) {
    StartsWith(Trim(segment), name + "=")
  }

  /** The manual path of `getCookie(name)` over `document.cookie`: the value of
      the first `;`-separated segment that, once trimmed, starts with `name=`. */
  method GetCookie(documentCookie: string, name: string) returns (value: Option<string>)
    ensures value.None? ==> forall k :: 0 <= k < |Split(documentCookie, ';')| ==> !Names(Split(documentCookie, ';')[k], name)
    ensures (forall k :: 0 <= k < |Split(documentCookie, ';')| ==> !Names(Split(documentCookie, ';')[k], name)) ==> value.None?
    ensures value.Some? ==>
      exists k :: && 0 <= k < |Split(documentCookie, ';')|
                  && Trim(Split(documentCookie, ';')[k]) == name + "=" + value.value
                  && forall m :: 0 <= m < k ==> !Names(Split(documentCookie, ';')[m], name)
  {
    var nameEQ := name + "=";
    var cookies := Split(documentCookie, ';');
    for i := 0 to |cookies|
      invariant forall m :: 0 <= m < i ==> !Names(cookies[m], name)
    {
      var cookie := Trim(cookies[i]);
      if StartsWith(cookie, nameEQ) {
        value := Some(cookie[|nameEQ|..]);
        assert cookie == nameEQ + value.value;
        assert Names(cookies[i], name);
        return;
      }
    }
    value := None;
    assert forall k :: 0 <= k < |cookies| ==> !Names(cookies[k], name);
  }

  // ---------------------------------------------------------------- class names

  predicate IsLowerAlnum(c: char) {
    'a' <= c <= 'z' || IsDigit(c)
  }

  /** `s.toLowerCase().replace(/[^a-z0-9]/g, '')` on ASCII letters. */
  function AlnumLower(s: string): string {
    if s == [] then []
    else
      var c := LowerAscii(s[0]);
      (if IsLowerAlnum(c) then [c] else []) + AlnumLower(s[1..])
  }

  /** The CSS class given to a language's cells. */
  function ClassName(language: string): string {
    "l-" + AlnumLower(language)
  }

  lemma {:induction false} AlnumLowerChars(s: string)
    ensures |AlnumLower(s)| <= |s|
    ensures forall k :: 0 <= k < |AlnumLower(s)| ==> IsLowerAlnum(AlnumLower(s)[k])
  {
    if s != [] {
      AlnumLowerChars(s[1..]);
    }
  }

  /** Already clean text passes through unchanged. */
  lemma {:induction false} AlnumLowerOfClean(s: string)
    requires forall k :: 0 <= k < |s| ==> IsLowerAlnum(s[k])
    ensures AlnumLower(s) == s
  {
    if s != [] {
      AlnumLowerOfClean(s[1..]);
    }
  }

  /** A class name is "l-" followed by lower-case letters and digits only, and
      deriving it again from its own tail gives it back. */
  lemma ClassNameShape(language: string)
    ensures var cn := ClassName(language);
      && |cn| >= 2 && cn[..2] == "l-"
      && (forall k :: 2 <= k < |cn| ==> IsLowerAlnum(cn[k]))
      && ClassName(cn[2..]) == cn
  {
    var tail := AlnumLower(language);
    AlnumLowerChars(language);
    assert ClassName(language)[2..] == tail;
    AlnumLowerOfClean(tail);
  }

  // ----------------------------------------------------------------- languages

  /** A standings cell with a `title`; `ratingPredictor` marks the cells the
      rating predictor adds to the table. */
  datatype TitleCell = TitleCell(title: string, ratingPredictor: bool)

  /** A value of the language map: the language, its class name, the palette
      slot of its colour and the number of cells in it. */
  datatype LanguageEntry = LanguageEntry(name: string, className: string, slot: nat, count: nat)

  /** A language specification `[names, className, style, displayName]`. */
  datatype LanguageSpec = LanguageSpec(names: seq<string>, className: string, style: string, displayName: string)

  /** The background and border of each palette colour. */
  const Palette: seq<(string, string)> := [
    ("#ccffff", "double #6666ff"), ("#ffccff", "dashed #ff33ff"), ("#ccff99", "solid #00cc00"),
    ("#ffff99", "dashed #ff6633"), ("#ffcc99", "solid #ff33ff"), ("#ccccff", "solid #cc00ff"),
    ("#33cccc", "solid #006666"), ("#ff9999", "dashed #cc0000"), ("#99ff99", "dotted #006600"),
    ("#9999ff", "solid #3333cc"), ("#ffcccc", "solid #ff6666"), ("#ccffcc", "dashed #66ff66"),
    ("#ffffcc", "dotted #ffff66"), ("#ffccaa", "solid #ff9966"), ("#ccaaff", "dashed #9966ff")]

  /** The style of the colour in palette slot `slot % 15`. */
  function PaletteStyle(slot: nat): string {
    var colour := Palette[slot % |Palette|];
    "background-color: " + colour.0 + " !important; border: " + colour.1 + ";"
  }

  const FallbackStyle: string := "background-color: #f0f0f0 !important; border: solid #999;"

  /** `languageMap.has(name)` / `languageMap.get(name)`: where the entry for
      `name` sits, if there is one. */
  function EntryIndex(entries: seq<LanguageEntry>, name: string): (r: Option<nat>)
    ensures r.Some? ==> r.value < |entries| && entries[r.value].name == name
    ensures r.None? ==> forall k :: 0 <= k < |entries| ==> entries[k].name != name
  {
    if entries == [] then None
    else if entries[0].name == name then Some(0)
    else match EntryIndex(entries[1..], name)
      case Some(k) => Some(k + 1)
      case None => None
  }

  /** One more cell in `language`: its count goes up, or it joins the map with
      the next palette slot and a count of one. */
  function Bump(entries: seq<LanguageEntry>, language: string): seq<LanguageEntry> {
    match EntryIndex(entries, language)
    case Some(k) => entries[k := entries[k].(count := entries[k].count + 1)]
    case None => entries + [LanguageEntry(language, ClassName(language), |entries| % |Palette|, 1)]
  }

  /** The language map after the given cells' languages, in order of first appearance. */
  function Tally(languages: seq<string>): seq<LanguageEntry> {
    if languages == [] then [] else Bump(Tally(languages[..|languages| - 1]), languages[|languages| - 1])
  }

  /** How many of `languages` are `name`. */
  function Occurrences(languages: seq<string>, name: string): nat {
    if languages == [] then 0
    else Occurrences(languages[..|languages| - 1], name) + (if languages[|languages| - 1] == name then 1 else 0)
  }

  /** Entry `k` of the map counts exactly the cells in its language, has its
      class name, and got palette slot `k % 15`. */
  predicate EntryCounts(t: seq<LanguageEntry>, k: int, languages: seq<string>)
    requires 0 <= k < |t|
  {
    && t[k].count == Occurrences(languages, t[k].name) >= 1
    && t[k].slot == k % |Palette|
    && t[k].className == ClassName(t[k].name)
  }

  /** `t` is a faithful language map of `languages`: one entry per language,
      each counting its cells. */
  predicate TallyOf(t: seq<LanguageEntry>, languages: seq<string>) {
    && (forall i, j :: 0 <= i < j < |t| ==> t[i].name != t[j].name)
    && (forall k :: 0 <= k < |t| ==> EntryCounts(t, k, languages))
    && (forall i :: 0 <= i < |languages| ==> EntryIndex(t, languages[i]).Some?)
  }

  lemma {:induction false} TallyCounts(languages: seq<string>)
    ensures TallyOf(Tally(languages), languages)
  {
    if languages != [] {
      var init := languages[..|languages| - 1];
      var l := languages[|languages| - 1];
      TallyCounts(init);
      assert languages == init + [l];
      match EntryIndex(Tally(init), l)
      case Some(k) => BumpSeenKeepsTally(Tally(init), init, l, k);
      case None => BumpNewKeepsTally(Tally(init), init, l);
    }
  }

  /** Appending one more cell's language adds one to its count and nothing else. */
  lemma OccurrencesSnoc(init: seq<string>, l: string, name: string)
    ensures Occurrences(init + [l], name) == Occurrences(init, name) + (if l == name then 1 else 0)
  {
    assert (init + [l])[..|init|] == init;
  }

  /** Bumping a language already in the map keeps it a faithful map. */
  lemma BumpSeenKeepsTally(t: seq<LanguageEntry>, init: seq<string>, l: string, k: nat)
    requires TallyOf(t, init) && EntryIndex(t, l) == Some(k)
    ensures TallyOf(Bump(t, l), init + [l])
  {
    var languages := init + [l];
    var t' := Bump(t, l);
    forall k' | 0 <= k' < |t'| ensures EntryCounts(t', k', languages) {
      assert EntryCounts(t, k', init);
      OccurrencesSnoc(init, l, t'[k'].name);
    }
    forall i | 0 <= i < |languages| ensures EntryIndex(t', languages[i]).Some? {
      if i < |init| {
        assert languages[i] == init[i];
        var m := EntryIndex(t, init[i]).value;
        assert t'[m].name == init[i];
      } else {
        assert t'[k].name == l;
      }
    }
  }

  /** Adding a language first seen keeps the map faithful. */
  lemma BumpNewKeepsTally(t: seq<LanguageEntry>, init: seq<string>, l: string)
    requires TallyOf(t, init) && EntryIndex(t, l) == None
    ensures TallyOf(Bump(t, l), init + [l])
  {
    BumpNewCounts(t, init, l);
    BumpNewCovers(t, init, l);
  }

  lemma BumpNewCounts(t: seq<LanguageEntry>, init: seq<string>, l: string)
    requires TallyOf(t, init) && EntryIndex(t, l) == None
    ensures forall k :: 0 <= k < |Bump(t, l)| ==> EntryCounts(Bump(t, l), k, init + [l])
  {
    var t' := Bump(t, l);
    assert Occurrences(init, l) == 0 by {
      if Occurrences(init, l) > 0 {
        var i := OccurrenceWitness(init, l);
        assert false;
      }
    }
    forall k | 0 <= k < |t'| ensures EntryCounts(t', k, init + [l]) {
      OccurrencesSnoc(init, l, t'[k].name);
      if k < |t| {
        assert EntryCounts(t, k, init);
      }
    }
  }

  lemma BumpNewCovers(t: seq<LanguageEntry>, init: seq<string>, l: string)
    requires TallyOf(t, init) && EntryIndex(t, l) == None
    ensures forall i :: 0 <= i < |init + [l]| ==> EntryIndex(Bump(t, l), (init + [l])[i]).Some?
  {
    var languages := init + [l];
    var t' := Bump(t, l);
    forall i | 0 <= i < |languages| ensures EntryIndex(t', languages[i]).Some? {
      if i < |init| {
        assert languages[i] == init[i];
        var m := EntryIndex(t, init[i]).value;
        assert t'[m].name == init[i];
      } else {
        assert t'[|t|].name == l;
      }
    }
  }

  lemma {:induction false} OccurrenceWitness(languages: seq<string>, name: string) returns (i: int)
    requires Occurrences(languages, name) > 0
    ensures 0 <= i < |languages| && languages[i] == name
  {
    var init := languages[..|languages| - 1];
    if languages[|languages| - 1] == name {
      i := |languages| - 1;
    } else {
      i := OccurrenceWitness(init, name);
      assert languages[i] == init[i];
    }
  }

  /** The language the primary detection reads from a cell: none for a cell
      without a title, for a rating predictor cell, or when `extract` (the
      title parser) finds nothing or the empty string. */
  function PrimaryLanguage(cell: TitleCell, extract: string -> Option<string>): Option<string> {
    if cell.title == [] || cell.ratingPredictor then None
    else match extract(cell.title)
      case Some(language) => if language == [] then None else Some(language)
      case None => None
  }

  /** The languages of the cells the primary detection counts, in page order. */
  function PrimaryLanguages(cells: seq<TitleCell>, extract: string -> Option<string>): seq<string> {
    if cells == [] then []
    else
      var init := PrimaryLanguages(cells[..|cells| - 1], extract);
      match PrimaryLanguage(cells[|cells| - 1], extract)
      case Some(language) => init + [language]
      case None => init
  }

  /** Length of the longest prefix of `title` free of `(`, `,`, `;` and `:`. */
  function PlainPrefixLen(title: string): (n: nat)
    ensures n <= |title|
    ensures forall k :: 0 <= k < n ==> title[k] !in "(,;:"
    ensures n < |title| ==> title[n] in "(,;:"
  {
    if title == [] || title[0] in "(,;:" then 0 else 1 + PlainPrefixLen(title[1..])
  }

  /** The fallback's reading of a title: the text before the first `(`, `,`,
      `;` or `:`, trimmed and with runs of white space collapsed, if that is
      longer than one character. */
  function FallbackLanguage(cell: TitleCell): Option<string> {
    var n := PlainPrefixLen(cell.title);
    if n == 0 then None
    else
      var language := CollapseSpaces(Trim(cell.title[..n]));
      if |language| > 1 then Some(language) else None
  }

  function FallbackLanguages(cells: seq<TitleCell>): seq<string> {
    if cells == [] then []
    else
      var init := FallbackLanguages(cells[..|cells| - 1]);
      match FallbackLanguage(cells[|cells| - 1])
      case Some(language) => init + [language]
      case None => init
  }

  /** The entries with at least one cell. */
  function Counted(entries: seq<LanguageEntry>): (r: seq<LanguageEntry>)
    ensures forall k :: 0 <= k < |r| ==> r[k].count > 0
  {
    if entries == [] then []
    else Counted(entries[..|entries| - 1]) + (if entries[|entries| - 1].count > 0 then [entries[|entries| - 1]] else [])
  }

  /** The comparator `b.count - a.count`: more cells come first. */
  function MoreCells(a: LanguageEntry, b: LanguageEntry): bool {
    a.count >= b.count
  }

  function PrimarySpec(e: LanguageEntry): LanguageSpec {
    LanguageSpec([e.name], e.className, PaletteStyle(e.slot), e.name)
  }

  function FallbackSpec(e: LanguageEntry): LanguageSpec {
    LanguageSpec([e.name], e.className, FallbackStyle, e.name)
  }

  /** The primary language map, most used language first. */
  function PrimaryEntries(cells: seq<TitleCell>, extract: string -> Option<string>): seq<LanguageEntry> {
    Sort(Counted(Tally(PrimaryLanguages(cells, extract))), MoreCells)
  }

  function FallbackSpecs(cells: seq<TitleCell>): seq<LanguageSpec> {
    Map(Counted(Tally(FallbackLanguages(cells))), FallbackSpec)
  }

  /** The specifications the page is coloured with: the primary ones, or the
      fallback's when the primary detection finds no language. */
  function LanguageSpecs(cells: seq<TitleCell>, extract: string -> Option<string>): seq<LanguageSpec> {
    var entries := PrimaryEntries(cells, extract);
    if entries == [] then FallbackSpecs(cells) else Map(entries, PrimarySpec)
  }

  lemma TallyAppend(languages: seq<string>, language: string)
    ensures Tally(languages + [language]) == Bump(Tally(languages), language)
  {
    assert (languages + [language])[..|languages|] == languages;
  }

  lemma PrimaryLanguagesStep(cells: seq<TitleCell>, i: int, extract: string -> Option<string>)
    requires 0 <= i < |cells|
    ensures PrimaryLanguage(cells[i], extract).None? ==>
      PrimaryLanguages(cells[..i + 1], extract) == PrimaryLanguages(cells[..i], extract)
    ensures PrimaryLanguage(cells[i], extract).Some? ==>
      PrimaryLanguages(cells[..i + 1], extract) == PrimaryLanguages(cells[..i], extract) + [PrimaryLanguage(cells[i], extract).value]
  {
    assert cells[..i + 1][..i] == cells[..i];
  }

  lemma FallbackLanguagesStep(cells: seq<TitleCell>, i: int)
    requires 0 <= i < |cells|
    ensures FallbackLanguage(cells[i]).None? ==> FallbackLanguages(cells[..i + 1]) == FallbackLanguages(cells[..i])
    ensures FallbackLanguage(cells[i]).Some? ==>
      FallbackLanguages(cells[..i + 1]) == FallbackLanguages(cells[..i]) + [FallbackLanguage(cells[i]).value]
  {
    assert cells[..i + 1][..i] == cells[..i];
  }

  /** One cell's step of the tally: a new language is added with count zero
      and the next colour, then the language's count goes up. */
  method CountCell(languageMap: seq<LanguageEntry>, language: string, colorIndex: nat)
    returns (languageMap': seq<LanguageEntry>, colorIndex': nat)
    requires colorIndex == |languageMap|
    ensures languageMap' == Bump(languageMap, language)
    ensures colorIndex' == |languageMap'|
  {
    languageMap', colorIndex' := languageMap, colorIndex;
    var at := EntryIndex(languageMap', language);
    if at.None? {
      languageMap' := languageMap' + [LanguageEntry(language, ClassName(language), colorIndex' % |Palette|, 0)];
      colorIndex' := colorIndex' + 1;
      at := Some(|languageMap'| - 1);
    }
    var k := at.value;
    languageMap' := languageMap'[k := languageMap'[k].(count := languageMap'[k].count + 1)];
  }

  /** `detectLanguagesFromPage`: tallies the languages of the titled cells,
      drops rating predictor cells, orders by use and falls back when nothing
      was found. */
  method DetectLanguagesFromPage(cells: seq<TitleCell>, extract: string -> Option<string>) returns (specs: seq<LanguageSpec>)
    ensures specs == LanguageSpecs(cells, extract)
  {
    var languageMap: seq<LanguageEntry> := [];
    var colorIndex := 0;
    for i := 0 to |cells|
      invariant languageMap == Tally(PrimaryLanguages(cells[..i], extract))
      invariant colorIndex == |languageMap|
    {
      PrimaryLanguagesStep(cells, i, extract);
      var cell := cells[i];
      if cell.title != [] && !cell.ratingPredictor {
        var language := extract(cell.title);
        if language.Some? && language.value != [] {
          assert PrimaryLanguage(cell, extract) == language;
          TallyAppend(PrimaryLanguages(cells[..i], extract), language.value);
          languageMap, colorIndex := CountCell(languageMap, language.value, colorIndex);
        }
      }
    }
    assert cells[..|cells|] == cells;
    var sorted := Sort(Counted(languageMap), MoreCells);
    specs := Map(sorted, PrimarySpec);
    if |specs| == 0 {
      specs := DetectLanguagesFallback(cells);
    }
  }

  /** `detectLanguagesFallback`: the same tally over the plain title prefixes,
      in one neutral style and in order of first appearance. */
  method DetectLanguagesFallback(cells: seq<TitleCell>) returns (specs: seq<LanguageSpec>)
    ensures specs == FallbackSpecs(cells)
  {
    var languageMap: seq<LanguageEntry> := [];
    for i := 0 to |cells|
      invariant languageMap == Tally(FallbackLanguages(cells[..i]))
    {
      FallbackLanguagesStep(cells, i);
      var cell := cells[i];
      if cell.title != [] {
        var n := PlainPrefixLen(cell.title);
        if n > 0 {
          var language := CollapseSpaces(Trim(cell.title[..n]));
          if |language| > 1 {
            assert FallbackLanguage(cell) == Some(language);
            TallyAppend(FallbackLanguages(cells[..i]), language);
            var unused;
            languageMap, unused := CountCell(languageMap, language, |languageMap|);
          }
        }
      }
    }
    assert cells[..|cells|] == cells;
    specs := Map(Counted(languageMap), FallbackSpec);
  }

  // ------------------------------------------------------ what detection yields

  /** `e` summarises `languages`: one entry per language, each counting
      exactly its cells and carrying its class name. */
  predicate Summarises(e: seq<LanguageEntry>, languages: seq<string>) {
    && (forall i, j :: 0 <= i < j < |e| ==> e[i].name != e[j].name)
    && (forall k :: 0 <= k < |e| ==> e[k].count == Occurrences(languages, e[k].name) >= 1)
    && (forall k :: 0 <= k < |e| ==> e[k].className == ClassName(e[k].name))
    && (forall i :: 0 <= i < |languages| ==> EntryIndex(e, languages[i]).Some?)
  }

  lemma {:induction false} CountedKeepsAll(entries: seq<LanguageEntry>)
    requires forall k :: 0 <= k < |entries| ==> entries[k].count > 0
    ensures Counted(entries) == entries
  {
    if entries != [] {
      CountedKeepsAll(entries[..|entries| - 1]);
      assert entries[..|entries| - 1] + [entries[|entries| - 1]] == entries;
    }
  }

  lemma {:induction false} TallySummarises(languages: seq<string>)
    ensures Counted(Tally(languages)) == Tally(languages)
    ensures Summarises(Tally(languages), languages)
  {
    var t := Tally(languages);
    TallyCounts(languages);
    forall k | 0 <= k < |t|
      ensures t[k].count == Occurrences(languages, t[k].name) >= 1
      ensures t[k].className == ClassName(t[k].name)
    {
      assert EntryCounts(t, k, languages);
    }
    CountedKeepsAll(t);
  }

  /** An element that occurs in a sequence only once has multiplicity one. */
  lemma OnlyOnce(s: seq<LanguageEntry>, p: int)
    requires 0 <= p < |s|
    requires forall q :: 0 <= q < |s| && q != p ==> s[q].name != s[p].name
    ensures multiset(s)[s[p]] == 1
  {
    var x := s[p];
    assert s == s[..p] + [x] + s[p + 1..];
    assert x !in s[..p];
    assert x !in s[p + 1..];
  }

  /** An element found at two positions has multiplicity two at least. */
  lemma Twice(s: seq<LanguageEntry>, i: int, j: int)
    requires 0 <= i < j < |s| && s[i] == s[j]
    ensures multiset(s)[s[i]] >= 2
  {
    assert s == s[..i] + [s[i]] + s[i + 1..j] + [s[j]] + s[j + 1..];
  }

  /** A reordering of a summary is a summary of the same languages. */
  lemma {:induction false} SummarisesPermutation(a: seq<LanguageEntry>, b: seq<LanguageEntry>, languages: seq<string>)
    requires multiset(a) == multiset(b)
    requires Summarises(a, languages)
    ensures Summarises(b, languages)
  {
    forall k | 0 <= k < |b|
      ensures b[k].count == Occurrences(languages, b[k].name) >= 1
      ensures b[k].className == ClassName(b[k].name)
    {
      assert b[k] in multiset(a);
      var p :| 0 <= p < |a| && a[p] == b[k];
    }
    forall i, j | 0 <= i < j < |b| ensures b[i].name != b[j].name {
      if b[i].name == b[j].name {
        assert b[i] in multiset(a);
        assert b[j] in multiset(a);
        var p :| 0 <= p < |a| && a[p] == b[i];
        var q :| 0 <= q < |a| && a[q] == b[j];
        if p != q {
          assert false;
        }
        Twice(b, i, j);
        OnlyOnce(a, p);
        assert false;
      }
    }
    forall i | 0 <= i < |languages| ensures EntryIndex(b, languages[i]).Some? {
      var m := EntryIndex(a, languages[i]).value;
      assert a[m] in multiset(b);
      var q :| 0 <= q < |b| && b[q] == a[m];
    }
  }

  /** The primary language map, as used: ordered from the most to the least
      used language, a reordering of the tally, and a summary of the languages
      the primary detection found. */
  lemma PrimaryEntriesFacts(cells: seq<TitleCell>, extract: string -> Option<string>)
    ensures SortedBy(PrimaryEntries(cells, extract), MoreCells)
    ensures multiset(PrimaryEntries(cells, extract)) == multiset(Tally(PrimaryLanguages(cells, extract)))
    ensures Summarises(PrimaryEntries(cells, extract), PrimaryLanguages(cells, extract))
  {
    var languages := PrimaryLanguages(cells, extract);
    TallySummarises(languages);
    SortSorted(Tally(languages), MoreCells);
    SummarisesPermutation(Tally(languages), PrimaryEntries(cells, extract), languages);
  }

  /** The fallback's specifications: one per language it read, each counting
      exactly its cells, all in the neutral style. */
  lemma FallbackSpecsFacts(cells: seq<TitleCell>)
    ensures var languages := FallbackLanguages(cells);
      && |FallbackSpecs(cells)| == |Tally(languages)|
      && Summarises(Tally(languages), languages)
      && forall k :: 0 <= k < |FallbackSpecs(cells)| ==>
           FallbackSpecs(cells)[k] == LanguageSpec([Tally(languages)[k].name], Tally(languages)[k].className, FallbackStyle, Tally(languages)[k].name)
  {
    TallySummarises(FallbackLanguages(cells));
  }

  lemma {:induction false} PrimaryLanguagesNone(cells: seq<TitleCell>, extract: string -> Option<string>)
    ensures PrimaryLanguages(cells, extract) == [] <==>
      forall i :: 0 <= i < |cells| ==> PrimaryLanguage(cells[i], extract).None?
  {
    if cells != [] {
      var init := cells[..|cells| - 1];
      PrimaryLanguagesNone(init, extract);
      assert forall i :: 0 <= i < |init| ==> init[i] == cells[i];
    }
  }

  lemma TallyEmpty(languages: seq<string>)
    ensures Tally(languages) == [] <==> languages == []
  {
    if languages != [] {
      TallyCounts(languages);
      assert EntryIndex(Tally(languages), languages[0]).Some?;
    }
  }

  /** The fallback is used exactly when no cell yields a language to the
      primary detection; otherwise the primary specifications are used and
      there is at least one. */
  lemma UsesFallbackExactlyWhenNothingDetected(cells: seq<TitleCell>, extract: string -> Option<string>)
    ensures (forall i :: 0 <= i < |cells| ==> PrimaryLanguage(cells[i], extract).None?) ==>
      LanguageSpecs(cells, extract) == FallbackSpecs(cells)
    ensures (exists i :: 0 <= i < |cells| && PrimaryLanguage(cells[i], extract).Some?) ==>
      LanguageSpecs(cells, extract) == Map(PrimaryEntries(cells, extract), PrimarySpec) && |LanguageSpecs(cells, extract)| > 0
  {
    var languages := PrimaryLanguages(cells, extract);
    PrimaryLanguagesNone(cells, extract);
    TallyEmpty(languages);
    TallySummarises(languages);
  }

  /** What the fallback reads from a title is longer than one character,
      holds none of `(`, `,`, `;`, `:` and has no two spaces side by side. */
  lemma FallbackLanguageShape(cell: TitleCell)
    ensures FallbackLanguage(cell).Some? ==>
      var l := FallbackLanguage(cell).value;
      && |l| > 1
      && (forall k :: 0 <= k < |l| ==> l[k] !in "(,;:")
      && (forall k :: 0 <= k < |l| - 1 ==> !(IsSpace(l[k]) && IsSpace(l[k + 1])))
  {
    var n := PlainPrefixLen(cell.title);
    if n > 0 {
      var prefix := cell.title[..n];
      CollapseTrimChars(prefix);
      CollapseSpacesProperties(Trim(prefix));
    }
  }

  // ------------------------------------------------------------- display names

  /** The first element of a specification: one name or an array of names. */
  datatype NameField = OneName(name: string) | NameList(list: seq<string>)

  /** A specification as the script may hold it: its names, then the elements
      after them (class name, style and display name, when present). */
  datatype RawSpec = RawSpec(names: NameField, rest: seq<string>)

  /** `toArray`: a single name becomes a one-element array. */
  function ToArray(names: NameField): (r: seq<string>)
    ensures names.OneName? ==> r == [names.name]
    ensures names.NameList? ==> r == names.list
  {
    match names
    case OneName(n) => [n]
    case NameList(ns) => ns
  }

  /** `getDisplayName`: the fourth element when there is one, otherwise the
      first of the names `toArray` gives; `None` stands for the `undefined` of
      an empty name array. */
  function DisplayName(spec: RawSpec): (r: Option<string>)
    ensures |spec.rest| >= 3 ==> r == Some(spec.rest[2])
    ensures |spec.rest| < 3 ==> (r.Some? <==> ToArray(spec.names) != [])
    ensures |spec.rest| < 3 && r.Some? ==> r.value == ToArray(spec.names)[0]
  {
    if 1 + |spec.rest| >= 4 then Some(spec.rest[2])
    else match spec.names
      case OneName(n) => Some(n)
      case NameList(ns) => if ns == [] then None else Some(ns[0])
  }

  function Raw(spec: LanguageSpec): RawSpec {
    RawSpec(NameList(spec.names), [spec.className, spec.style, spec.displayName])
  }

  /** A specification for one language: shown under its own name, and
      carrying that language's class name. */
  predicate OneLanguage(spec: LanguageSpec) {
    && DisplayName(Raw(spec)) == Some(spec.displayName)
    && ToArray(Raw(spec).names) == [spec.displayName]
    && spec.className == ClassName(spec.displayName)
  }

  /** A specification built from one language entry is for that one language. */
  lemma EntrySpecIsOneLanguage(name: string, className: string, style: string)
    requires className == ClassName(name)
    ensures OneLanguage(LanguageSpec([name], className, style, name))
  {
    assert ToArray(NameList([name])) == [name];
  }

  /** Every specification detection produces is for one language. */
  lemma DetectedSpecsShape(cells: seq<TitleCell>, extract: string -> Option<string>)
    ensures forall k :: 0 <= k < |LanguageSpecs(cells, extract)| ==> OneLanguage(LanguageSpecs(cells, extract)[k])
  {
    if PrimaryEntries(cells, extract) == [] {
      FallbackSpecsShape(cells);
    } else {
      PrimarySpecsShape(cells, extract);
    }
  }

  lemma FallbackSpecsShape(cells: seq<TitleCell>)
    ensures forall k :: 0 <= k < |FallbackSpecs(cells)| ==> OneLanguage(FallbackSpecs(cells)[k])
  {
    var t := Tally(FallbackLanguages(cells));
    var specs := FallbackSpecs(cells);
    FallbackSpecsFacts(cells);
    forall k | 0 <= k < |specs| ensures OneLanguage(specs[k]) {
      EntrySpecIsOneLanguage(t[k].name, t[k].className, FallbackStyle);
    }
  }

  lemma PrimarySpecsShape(cells: seq<TitleCell>, extract: string -> Option<string>)
    ensures forall k :: 0 <= k < |PrimaryEntries(cells, extract)| ==>
      OneLanguage(PrimarySpec(PrimaryEntries(cells, extract)[k]))
  {
    var entries := PrimaryEntries(cells, extract);
    PrimaryEntriesFacts(cells, extract);
    forall k | 0 <= k < |entries| ensures OneLanguage(PrimarySpec(entries[k])) {
      EntrySpecIsOneLanguage(entries[k].name, entries[k].className, PaletteStyle(entries[k].slot));
    }
  }
}
