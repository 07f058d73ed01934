/** The rating predictor of the standings page: the rank titles, the score read
    from a standings row, the actual rating change read from a finalized row,
    the prediction records built from the calculator's results, and the labels
    and colours the prediction columns show. */
module RatingPredictor {
  import opened Wrappers
  import opened Sequences
  import opened Text
  import opened RatingSeed
  import opened RatingCalculator

  // ---------------------------------------------------------------- rank titles

  /** `getRankAbbreviation`: the Codeforces title of a rating. */
  function RankAbbreviation(rating: int): string {
    if rating >= 3000 then "LGM"
    else if rating >= 2600 then "IGM"
    else if rating >= 2400 then "GM"
    else if rating >= 2300 then "IM"
    else if rating >= 2100 then "M"
    else if rating >= 1900 then "CM"
    else if rating >= 1600 then "E"
    else if rating >= 1400 then "S"
    else if rating >= 1200 then "P"
    else "N"
  }

  /** The lowest title is "N", given exactly below 1200; the highest is
      "LGM", given exactly from 3000. */
  lemma RankAbbreviationEnds(rating: int)
    ensures RankAbbreviation(rating) == "N" <==> rating < 1200
    ensures RankAbbreviation(rating) == "LGM" <==> rating >= 3000
  {
  }

  /** `getRankOrder` as written: its table has no entry for "CM" or "LGM", and
      `ranks[abbr] || 1` gives both the order of "N". */
  function RankOrderAsWritten(abbr: string): (o: int)
    ensures 1 <= o <= 8
  {
    if abbr == "N" then 1
    else if abbr == "P" then 2
    else if abbr == "S" then 3
    else if abbr == "E" then 4
    else if abbr == "M" then 5
    else if abbr == "IM" then 6
    else if abbr == "GM" then 7
    else if abbr == "IGM" then 8
    else 1
  }

  /** The order `getRankOrder` evidently means: every title of
      `getRankAbbreviation`, lowest first. */
  function RankOrder(abbr: string): (o: int)
    ensures 1 <= o <= 10
  {
    if abbr == "N" then 1
    else if abbr == "P" then 2
    else if abbr == "S" then 3
    else if abbr == "E" then 4
    else if abbr == "CM" then 5
    else if abbr == "M" then 6
    else if abbr == "IM" then 7
    else if abbr == "GM" then 8
    else if abbr == "IGM" then 9
    else if abbr == "LGM" then 10
    else 1
  }

  /** A higher rating never has a lower title, and different titles have
      different orders. */
  lemma RankOrderMonotone(r1: int, r2: int)
    ensures r1 <= r2 ==> RankOrder(RankAbbreviation(r1)) <= RankOrder(RankAbbreviation(r2))
    ensures RankAbbreviation(r1) != RankAbbreviation(r2) ==>
      RankOrder(RankAbbreviation(r1)) != RankOrder(RankAbbreviation(r2))
  {
  }

  /** How the rank-change cell is coloured. */
  datatype RankChangeStyle = Unchanged | Upgrade | Downgrade

  /** The colouring of the rank-change cell with the order as written. */
  function RankChangeStyleAsWritten(current: string, next: string): RankChangeStyle {
    if current == next then Unchanged
    else if RankOrderAsWritten(next) > RankOrderAsWritten(current) then Upgrade
    else Downgrade
  }

  /** The colouring of the rank-change cell with the corrected order. */
  function StyleOf(current: string, next: string): RankChangeStyle {
    if current == next then Unchanged
    else if RankOrder(next) > RankOrder(current) then Upgrade
    else Downgrade
  }

  /** With the corrected order, a title change is shown as an upgrade exactly
      when the rating went up, and as a downgrade exactly when it went down. */
  lemma StyleFollowsRating(current: int, next: int)
    ensures var s := StyleOf(RankAbbreviation(current), RankAbbreviation(next));
      && (s == Unchanged <==> RankAbbreviation(current) == RankAbbreviation(next))
      && (s == Upgrade <==> RankAbbreviation(current) != RankAbbreviation(next) && next > current)
      && (s == Downgrade <==> RankAbbreviation(current) != RankAbbreviation(next) && next < current)
  {
    RankOrderMonotone(current, next);
    RankOrderMonotone(next, current);
  }

  /** With the order as written, an expert at 1850 who gains 60 becomes a
      candidate master, and the cell shows it as a downgrade; the same happens
      when an international grandmaster reaches legendary grandmaster. */
  lemma AsWrittenShowsPromotionAsDowngrade()
    ensures RankAbbreviation(1850) == "E" && RankAbbreviation(1910) == "CM"
    ensures RankChangeStyleAsWritten(RankAbbreviation(1850), RankAbbreviation(1910)) == Downgrade
    ensures RankChangeStyleAsWritten(RankAbbreviation(2990), RankAbbreviation(3010)) == Downgrade
    ensures StyleOf(RankAbbreviation(1850), RankAbbreviation(1910)) == Upgrade
  {
  }

  /** The `rankChange` text: "old→new" when the titles differ, else the title. */
  function RankChange(current: string, next: string): (r: string)
    ensures r == current <==> current == next
    ensures current != next ==> |r| == |current| + 1 + |next|
    ensures current != next ==> r[..|current|] == current && r[|current| + 1..] == next
  {
    if current != next then current + "\U{2192}" + next else current
  }

  // ---------------------------------------------------------------- reading the standings

  /** The rank of a row: `parseInt(rankText.trim()) || (index + 1)`. */
  function RowRank(rankText: string, index: nat): (r: int)
    ensures r != 0
  {
    match ParseIntPrefix(Trim(rankText))
    case Some(v) => if v != 0 then v else index + 1
    case None => index + 1
  }

  /** A positive rank printed in decimal, with white space around it, reads
      back as itself. */
  lemma RowRankReadsPrintedRank(pre: string, n: nat, post: string, index: nat)
    requires n >= 1 && AllSpace(pre) && AllSpace(post)
    ensures RowRank(pre + NatToString(n) + post, index) == n
  {
    var d := NatToString(n);
    assert IsDigit(d[0]) && IsDigit(d[|d| - 1]);
    TrimPadded(pre, d, post);
    NatToStringValue(n);
    ParseUnsignedOfDigits(d, []);
    assert d + [] == d;
    assert !HasHexPrefix(d) by {
      if |d| >= 2 { assert IsDigit(d[1]); }
    }
  }

  /** When the trimmed text has no `0x` prefix after its optional sign and the
      digits there read as 0 (or there are none), the row number is the rank. */
  lemma RowRankFallsBack(rankText: string, index: nat)
    requires var s := Trim(rankText);
      var rest := if |s| > 0 && (s[0] == '-' || s[0] == '+') then s[1..] else s;
      !HasHexPrefix(rest) && DigitsValue(rest[..DigitPrefixLen(rest)]) == 0
    ensures RowRank(rankText, index) == index + 1
  {
  }

  /** `parseInt` reads a `0x` rank in base 16, and a bare `0x` falls back to the
      row number. */
  lemma RowRankHex(index: nat)
    ensures RowRank("0x1A", index) == 26
    ensures RowRank(" 0X ", index) == index + 1
  {
    HexRankText();
    BareHexRankText();
  }

  lemma BareHexRankText()
    ensures Trim(" 0X ") == "0X"
    ensures ParseIntPrefix("0X") == None
  {
    assert " " + "0X" + " " == " 0X ";
    TrimPadded(" ", "0X", " ");
    ParseIntPrefixOfHex("", 'X', "");
    assert "" + ['0', 'X'] + "" == "0X";
  }

  lemma HexRankText()
    ensures Trim("0x1A") == "0x1A"
    ensures ParseIntPrefix("0x1A") == Some(26)
  {
    TrimPadded("", "0x1A", "");
    assert "" + "0x1A" + "" == "0x1A" == "" + ['0', 'x'] + "1A";
    HexOneA();
    ParseIntPrefixOfHex("", 'x', "1A");
  }

  lemma HexOneA()
    ensures ParseHex("1A") == Some(26)
  {
    assert HexPrefixLen("1A") == 2 by { assert "1A"[1..] == "A"; }
    assert "1A"[..2] == "1A" && "1A"[..1] == "1";
    assert HexDigitsValue("1A") == 26 by { assert "1A"[..1][..0] == ""; }
  }

  /** The change match stops at the digits, so `+0x1A` reads as 0. */
  lemma SignedNumberInStopsAtDigits()
    ensures SignedNumberIn("+0x1A") == Some(0)
  {
  }

  /** The optional `\((\d+)\)` group: digits in parentheses, nothing else. */
  function PenaltyPart(rest: string): (r: Option<nat>)
  {
    if |rest| >= 3 && rest[0] == '(' && rest[|rest| - 1] == ')' && AllDigits(rest[1..|rest| - 1])
    then Some(DigitsValue(rest[1..|rest| - 1]))
    else None
  }

  /** `^(\d+)(?:\s*\((\d+)\))?$` on a trimmed cell: the points and, when given in
      parentheses, the penalty, else 0. */
  function ParseScore(text: string): Option<(int, int)>
  {
    var d := DigitPrefixLen(text);
    if d == 0 then None
    else if d == |text| then Some((DigitsValue(text), 0))
    else
      match PenaltyPart(TrimStart(text[d..]))
      case Some(q) => Some((DigitsValue(text[..d]), q))
      case None => None
  }

  /** How the standings print a score: the points, then the penalty in
      parentheses when there is one. */
  function ScoreText(points: nat, penalty: Option<nat>): string {
    NatToString(points) + (if penalty.Some? then " (" + NatToString(penalty.value) + ")" else "")
  }

  lemma PenaltyPartOfText(q: nat)
    ensures TrimStart(" (" + NatToString(q) + ")") == "(" + NatToString(q) + ")"
    ensures PenaltyPart("(" + NatToString(q) + ")") == Some(q)
  {
    var tail := " (" + NatToString(q) + ")";
    assert tail[1..] == "(" + NatToString(q) + ")";
    var rest := tail[1..];
    assert rest[1..|rest| - 1] == NatToString(q);
    NatToStringValue(q);
  }

  /** Parsing a printed score gives back its points and penalty. */
  lemma ParseScoreText(points: nat, penalty: Option<nat>)
    ensures ParseScore(ScoreText(points, penalty)) == Some((points, penalty.GetOr(0)))
  {
    var p := NatToString(points);
    var t := ScoreText(points, penalty);
    NatToStringValue(points);
    if penalty.Some? {
      var tail := " (" + NatToString(penalty.value) + ")";
      assert t == p + tail;
      DigitPrefixLenAppend(p, tail);
      assert t[..|p|] == p && t[|p|..] == tail;
      PenaltyPartOfText(penalty.value);
    } else {
      assert t == p;
      assert p + [] == p;
      DigitPrefixLenAppend(p, []);
    }
  }

  function ScoreCell(text: string): Option<(int, int)> {
    ParseScore(Trim(text))
  }

  function Max(a: int, b: int): int {
    if a >= b then a else b
  }

  /** The score part of `extractParticipants` for one row: the cells are scanned
      from the last down to the third, and the first that reads as a score gives
      points and penalty; without one, points are `max(0, 100 - rank)` and the
      penalty is 0. */
  method ExtractScore(cells: seq<string>, rank: int) returns (points: int, penalty: int)
    ensures (exists i :: 2 <= i < |cells| && ScoreCell(cells[i]).Some?) ==>
      exists i :: 2 <= i < |cells| && ScoreCell(cells[i]) == Some((points, penalty)) &&
        forall j :: i < j < |cells| ==> ScoreCell(cells[j]).None?
    ensures (forall i :: 2 <= i < |cells| ==> ScoreCell(cells[i]).None?) ==>
      points == Max(0, 100 - rank) && penalty == 0
  {
    var i := |cells| - 1;
    while i >= 2
      invariant -1 <= i < |cells|
      invariant forall j :: i < j < |cells| && j >= 2 ==> ScoreCell(cells[j]).None?
      decreases i
    {
      var score := ScoreCell(cells[i]);
      if score.Some? {
        points, penalty := score.value.0, score.value.1;
        assert ScoreCell(cells[i]) == Some((points, penalty));
        return;
      }
      i := i - 1;
    }
    points, penalty := Max(0, 100 - rank), 0;
  }

  /** `parseInt(text.match(/([+-]\d+)/)[1])`: the first sign followed by a
      digit, with the run of digits after it, is matched and only that match is
      read, so a `0x` after `+0` is not taken for base 16. */
  function SignedNumberIn(text: string): (r: Option<int>)
    decreases |text|
  {
    if |text| < 2 then None
    else if (text[0] == '+' || text[0] == '-') && IsDigit(text[1]) then
      ParseIntPrefix(text[..1 + DigitPrefixLen(text[1..])])
    else SignedNumberIn(text[1..])
  }

  /** How the page prints a rating change: "+n" for a gain, "-n" for a loss. */
  function ChangeText(change: int): string {
    if change > 0 then "+" + NatToString(change) else "-" + NatToString(-change)
  }

  /** A printed non-zero change is read back as itself. */
  lemma SignedNumberInChangeText(change: int)
    requires change != 0
    ensures SignedNumberIn(ChangeText(change)) == Some(change)
  {
    var n: nat := if change > 0 then change else -change;
    var sign := if change > 0 then '+' else '-';
    var text := [sign] + NatToString(n);
    ParseIntPrefixOfSignedNat(sign, n, []);
    assert [sign] + NatToString(n) + [] == text == ChangeText(change);
    DigitPrefixLenAppend(NatToString(n), []);
    assert text[1..] == NatToString(n) + [];
    assert text[..1 + DigitPrefixLen(text[1..])] == text;
  }

  /** A change the predictor accepts: one that reads as a number of at most 500
      either way. */
  predicate Plausible(change: Option<int>) {
    change.Some? && -500 <= change.value <= 500
  }

  /** The first plausible change among `texts`, if any. */
  function FirstPlausible(texts: seq<string>): Option<int>
    decreases |texts|
  {
    if texts == [] then None
    else if Plausible(SignedNumberIn(texts[0])) then SignedNumberIn(texts[0])
    else FirstPlausible(texts[1..])
  }

  /** `FirstPlausible` finds a plausible change, none exactly when no text holds
      one, and otherwise the change of the first text that holds one. */
  lemma {:induction false} FirstPlausibleFacts(texts: seq<string>)
    ensures FirstPlausible(texts).None? <==> forall i :: 0 <= i < |texts| ==> !Plausible(SignedNumberIn(texts[i]))
    ensures FirstPlausible(texts).Some? ==>
      && Plausible(FirstPlausible(texts))
      && (exists i :: 0 <= i < |texts| && SignedNumberIn(texts[i]) == FirstPlausible(texts) &&
                      forall j :: 0 <= j < i ==> !Plausible(SignedNumberIn(texts[j])))
    decreases |texts|
  {
    if texts != [] && !Plausible(SignedNumberIn(texts[0])) {
      FirstPlausibleFacts(texts[1..]);
      assert forall i :: 1 <= i < |texts| ==> texts[i] == texts[1..][i - 1];
      if FirstPlausible(texts).Some? {
        var i :| 0 <= i < |texts[1..]| && SignedNumberIn(texts[1..][i]) == FirstPlausible(texts[1..]) &&
                 forall j :: 0 <= j < i ==> !Plausible(SignedNumberIn(texts[1..][j]));
        assert SignedNumberIn(texts[i + 1]) == FirstPlausible(texts);
      }
    }
  }

  /** One of the two loops of `extractActualRatingChanges`: the first text holding
      a plausible change, if any. */
  method FirstPlausibleChange(texts: seq<string>) returns (change: Option<int>)
    ensures change == FirstPlausible(texts)
    ensures change.Some? ==> -500 <= change.value <= 500
    ensures change.None? <==> forall i :: 0 <= i < |texts| ==> !Plausible(SignedNumberIn(texts[i]))
  {
    FirstPlausibleFacts(texts);
    change := None;
    var i := 0;
    while i < |texts|
      invariant 0 <= i <= |texts|
      invariant FirstPlausible(texts[i..]) == FirstPlausible(texts)
    {
      assert texts[i..][1..] == texts[i + 1..];
      var found := SignedNumberIn(texts[i]);
      if Plausible(found) {
        change := found;
        return;
      }
      i := i + 1;
    }
  }

  /** The texts of one participant's row: the trimmed text of its elements and
      the `title` of its elements whose title mentions the rating. */
  datatype RowTexts = RowTexts(handle: string, elementTexts: seq<string>, titles: seq<string>)

  /** The change one row shows: from a title when one holds a plausible change
      (the title loop runs second and overwrites), otherwise from the element texts. */
  function RowChange(row: RowTexts): Option<int> {
    var fromTitles := FirstPlausible(row.titles);
    if fromTitles.Some? then fromTitles else FirstPlausible(Map(row.elementTexts, Trim))
  }

  /** The map after the rows, one after the other: a row showing a change sets
      its handle's entry, a row showing none leaves the map alone. */
  function Changes(rows: seq<RowTexts>): map<string, int>
    decreases |rows|
  {
    if rows == [] then map[]
    else
      var before := Changes(rows[..|rows| - 1]);
      var last := rows[|rows| - 1];
      match RowChange(last)
      case Some(change) => before[last.handle := change]
      case None => before
  }

  /** Some row with handle `h` shows the change `v`. */
  predicate ShownIn(rows: seq<RowTexts>, h: string, v: int) {
    exists i :: 0 <= i < |rows| && rows[i].handle == h && RowChange(rows[i]) == Some(v)
  }

  /** A row's change is plausible, and a title's change wins over the element texts. */
  lemma RowChangeFacts(row: RowTexts)
    ensures RowChange(row).Some? ==> -500 <= RowChange(row).value <= 500
    ensures FirstPlausible(row.titles).Some? ==> RowChange(row) == FirstPlausible(row.titles)
    ensures RowChange(row).None? <==>
      (forall i :: 0 <= i < |row.titles| ==> !Plausible(SignedNumberIn(row.titles[i]))) &&
      (forall i :: 0 <= i < |row.elementTexts| ==> !Plausible(SignedNumberIn(Trim(row.elementTexts[i]))))
  {
    FirstPlausibleFacts(row.titles);
    FirstPlausibleFacts(Map(row.elementTexts, Trim));
  }

  /** Every recorded change is shown by a row with that handle; the last row of
      a handle that shows a change decides its entry; a handle is recorded
      exactly when one of its rows shows a change. */
  lemma ChangesFacts(rows: seq<RowTexts>)
    ensures forall h :: h in Changes(rows) ==> ShownIn(rows, h, Changes(rows)[h])
    ensures forall i :: 0 <= i < |rows| && RowChange(rows[i]).Some? ==> rows[i].handle in Changes(rows)
    ensures forall i :: (&& 0 <= i < |rows| && RowChange(rows[i]).Some?
                         && forall j :: i < j < |rows| ==> rows[j].handle != rows[i].handle) ==>
      Changes(rows)[rows[i].handle] == RowChange(rows[i]).value
  {
    ChangesShown(rows);
    ChangesRecorded(rows);
    ChangesLastDecides(rows);
  }

  lemma {:induction false} ChangesShown(rows: seq<RowTexts>)
    ensures forall h :: h in Changes(rows) ==> ShownIn(rows, h, Changes(rows)[h])
    decreases |rows|
  {
    if rows != [] {
      var init := rows[..|rows| - 1];
      ChangesShown(init);
      forall h | h in Changes(rows) ensures ShownIn(rows, h, Changes(rows)[h]) {
        if h in Changes(init) && Changes(rows)[h] == Changes(init)[h] {
          var i :| 0 <= i < |init| && init[i].handle == h && RowChange(init[i]) == Some(Changes(init)[h]);
          assert rows[i] == init[i];
        } else {
          assert rows[|rows| - 1].handle == h;
        }
      }
    }
  }

  lemma {:induction false} ChangesRecorded(rows: seq<RowTexts>)
    ensures forall i :: 0 <= i < |rows| && RowChange(rows[i]).Some? ==> rows[i].handle in Changes(rows)
    decreases |rows|
  {
    if rows != [] {
      var init := rows[..|rows| - 1];
      ChangesRecorded(init);
      assert forall i :: 0 <= i < |init| ==> init[i] == rows[i];
    }
  }

  lemma {:induction false} ChangesLastDecides(rows: seq<RowTexts>)
    ensures forall i :: (&& 0 <= i < |rows| && RowChange(rows[i]).Some?
                         && forall j :: i < j < |rows| ==> rows[j].handle != rows[i].handle) ==>
      rows[i].handle in Changes(rows) && Changes(rows)[rows[i].handle] == RowChange(rows[i]).value
    decreases |rows|
  {
    if rows != [] {
      var init := rows[..|rows| - 1];
      ChangesLastDecides(init);
      assert forall i :: 0 <= i < |init| ==> init[i] == rows[i];
    }
  }

  /** `extractActualRatingChanges`: nothing before the contest is finalized;
      afterwards the rows are read in order, each row that shows a plausible
      change setting it for its handle, the title attributes taking precedence
      over the element texts. */
  method ExtractActualChanges(finalized: bool, rows: seq<RowTexts>) returns (changes: map<string, int>)
    ensures changes == if finalized then Changes(rows) else map[]
    ensures forall h :: h in changes ==> -500 <= changes[h] <= 500
  {
    changes := map[];
    if !finalized {
      return;
    }
    for i := 0 to |rows|
      invariant changes == Changes(rows[..i])
    {
      ChangesStep(rows, i);
      var change := ReadRow(rows[i]);
      if change.Some? {
        changes := changes[rows[i].handle := change.value];
      }
    }
    assert rows[..|rows|] == rows;
    ChangesBounded(rows);
  }

  /** The body of the row loop: the element texts are read first, then the
      titles, a plausible title change overwriting the element texts' one. */
  method ReadRow(row: RowTexts) returns (change: Option<int>)
    ensures change == RowChange(row)
  {
    change := FirstPlausibleChange(Map(row.elementTexts, Trim));
    var fromTitles := FirstPlausibleChange(row.titles);
    if fromTitles.Some? {
      change := fromTitles;
    }
  }

  /** One more row: its change, if it shows one, is set for its handle. */
  lemma ChangesStep(rows: seq<RowTexts>, i: nat)
    requires i < |rows|
    ensures Changes(rows[..i + 1]) ==
      if RowChange(rows[i]).Some? then Changes(rows[..i])[rows[i].handle := RowChange(rows[i]).value]
      else Changes(rows[..i])
  {
    assert rows[..i + 1][..i] == rows[..i];
  }

  /** Every recorded change lies within 500 of zero. */
  lemma ChangesBounded(rows: seq<RowTexts>)
    ensures forall h :: h in Changes(rows) ==> -500 <= Changes(rows)[h] <= 500
  {
    ChangesShown(rows);
    forall h | h in Changes(rows) ensures -500 <= Changes(rows)[h] <= 500 {
      var i :| 0 <= i < |rows| && rows[i].handle == h && RowChange(rows[i]) == Some(Changes(rows)[h]);
      RowChangeFacts(rows[i]);
    }
  }

  // ---------------------------------------------------------------- predictions

  /** A participant as `extractParticipants` records it. */
  datatype Participant = Participant(handle: string, rank: int, index: nat, points: int, penalty: int)

  /** The rating the predictor hands the calculator: `ratings.get(handle) || null`,
      so a rating of 0 counts as no rating. */
  function KnownRating(ratings: map<string, int>, handle: string): (r: Option<int>)
    ensures r.Some? <==> handle in ratings && ratings[handle] != 0
    ensures r.Some? ==> r.value == ratings[handle]
  {
    if handle in ratings && ratings[handle] != 0 then Some(ratings[handle]) else None
  }

  function ToInput(ratings: map<string, int>): Participant -> ContestantInput {
    (p: Participant) => ContestantInput(p.handle, p.points, p.penalty, KnownRating(ratings, p.handle))
  }

  /** The calculator's input, one record per participant, in table order. */
  function CalculatorInput(participants: seq<Participant>, ratings: map<string, int>): seq<ContestantInput> {
    Map(participants, ToInput(ratings))
  }

  /** One record of the predictions array. */
  datatype Prediction = Prediction(
    handle: string,
    index: nat,
    currentRating: int,
    performance: Performance,
    ratingChange: int,
    newRating: int,
    expectedRank: nat,
    actualRank: int,
    currentRankTitle: string,
    newRankTitle: string,
    rankChange: string)

  /** The prediction built from a calculator result and the participant it is
      paired with. */
  function PredictionOf(result: ContestantResult, p: Participant): Prediction {
    var current := EffectiveRating(result.rating);
    var next := current + result.delta;
    var currentTitle := RankAbbreviation(current);
    var nextTitle := RankAbbreviation(next);
    Prediction(result.handle, p.index, current, result.performance, result.delta, next,
               result.rank, p.rank, currentTitle, nextTitle, RankChange(currentTitle, nextTitle))
  }

  /** `calculateRatingChanges` as written: result `i` is paired with participant
      `i`, although the results come in rating order and the participants in
      table order. */
  function PredictionsAsWritten(results: seq<ContestantResult>, participants: seq<Participant>): (r: seq<Prediction>)
    requires |results| <= |participants|
    ensures |r| == |results|
  {
    ZipWith(results, participants, PredictionOf)
  }


  /** The first participant with the given handle. */
  function FindByHandle(participants: seq<Participant>, handle: string): (r: Option<Participant>)
    ensures r.None? <==> forall j :: 0 <= j < |participants| ==> participants[j].handle != handle
    ensures r.Some? ==> exists j :: 0 <= j < |participants| && participants[j] == r.value && r.value.handle == handle
  {
    if participants == [] then None
    else if participants[0].handle == handle then Some(participants[0])
    else
      var r := FindByHandle(participants[1..], handle);
      assert forall j :: 1 <= j < |participants| ==> participants[j] == participants[1..][j - 1];
      r
  }

  /** The prediction for one result under the corrected pairing: none when no
      participant has the result's handle. */
  function PairByHandle(result: ContestantResult, participants: seq<Participant>): seq<Prediction> {
    match FindByHandle(participants, result.handle)
    case Some(p) => [PredictionOf(result, p)]
    case None => []
  }

  /** The corrected pairing: each result with the participant of the same handle. */
  function PredictionsByHandle(results: seq<ContestantResult>, participants: seq<Participant>): seq<Prediction>
    decreases |results|
  {
    if results == [] then []
    else
      PredictionsByHandle(results[..|results| - 1], participants) +
        PairByHandle(results[|results| - 1], participants)
  }

  /** The fields a prediction takes from its result and from its participant. */
  predicate Carries(pr: Prediction, result: ContestantResult, p: Participant) {
    && pr.handle == result.handle
    && pr.ratingChange == result.delta
    && pr.expectedRank == result.rank
    && pr.performance == result.performance
    && pr.index == p.index
    && pr.actualRank == p.rank
  }

  lemma PredictionOfCarries(result: ContestantResult, p: Participant)
    ensures Carries(PredictionOf(result, p), result, p)
  {
  }

  /** Some participant has the prediction's handle, row index and table rank. */
  predicate HasRow(pr: Prediction, participants: seq<Participant>) {
    exists j :: 0 <= j < |participants| && participants[j].handle == pr.handle &&
                participants[j].index == pr.index && participants[j].rank == pr.actualRank
  }

  /** Every corrected prediction carries the row index and the table rank of a
      participant whose handle is the prediction's own. */
  lemma {:induction false} PredictionsByHandleMatchRows(results: seq<ContestantResult>, participants: seq<Participant>)
    ensures forall k :: 0 <= k < |PredictionsByHandle(results, participants)| ==>
      HasRow(PredictionsByHandle(results, participants)[k], participants)
    decreases |results|
  {
    if results != [] {
      var init := results[..|results| - 1];
      var last := results[|results| - 1];
      PredictionsByHandleMatchRows(init, participants);
      var front := PredictionsByHandle(init, participants);
      var tail := PairByHandle(last, participants);
      var pred := PredictionsByHandle(results, participants);
      assert pred == front + tail;
      forall k | 0 <= k < |pred|
        ensures HasRow(pred[k], participants)
      {
        if k < |front| {
          assert pred[k] == front[k];
        } else {
          var found := FindByHandle(participants, last.handle);
          assert tail != [];
          assert found.Some?;
          var j :| 0 <= j < |participants| && participants[j] == found.value && found.value.handle == last.handle;
          PredictionOfCarries(last, found.value);
          assert pred[k] == PredictionOf(last, found.value);
          assert Carries(pred[k], last, participants[j]);
        }
      }
    }
  }

  /** Some participant has the handle. */
  predicate Listed(handle: string, participants: seq<Participant>) {
    exists j :: 0 <= j < |participants| && participants[j].handle == handle
  }

  /** The fields a prediction takes from its calculator result. */
  predicate FromResult(pr: Prediction, result: ContestantResult) {
    && pr.handle == result.handle
    && pr.ratingChange == result.delta
    && pr.expectedRank == result.rank
    && pr.performance == result.performance
  }

  /** When every result's handle is among the participants, there is one
      corrected prediction per result, in the results' order, carrying that
      result's handle, rating change, rank and performance. */
  lemma {:induction false} PredictionsByHandleComplete(results: seq<ContestantResult>, participants: seq<Participant>)
    requires forall i :: 0 <= i < |results| ==> Listed(results[i].handle, participants)
    ensures |PredictionsByHandle(results, participants)| == |results|
    ensures forall k :: 0 <= k < |results| ==> FromResult(PredictionsByHandle(results, participants)[k], results[k])
    decreases |results|
  {
    if results != [] {
      var init := results[..|results| - 1];
      assert forall i :: 0 <= i < |init| ==> init[i] == results[i];
      PredictionsByHandleComplete(init, participants);
      var last := results[|results| - 1];
      var front := PredictionsByHandle(init, participants);
      var found := FindByHandle(participants, last.handle);
      assert Listed(last.handle, participants);
      assert found.Some?;
      PredictionOfCarries(last, found.value);
      var pred := PredictionsByHandle(results, participants);
      assert pred == front + [PredictionOf(last, found.value)];
      forall k | 0 <= k < |results|
        ensures FromResult(pred[k], results[k])
      {
        if k < |front| {
          assert pred[k] == front[k];
        }
      }
    }
  }

  /** Every prediction's new rating is its current rating plus its change, its
      current rating is the calculator's effective rating, and its rank-change
      text names both titles exactly when they differ. */
  lemma PredictionRatings(result: ContestantResult, p: Participant)
    requires result.effectiveRating == EffectiveRating(result.rating)
    ensures var pr := PredictionOf(result, p);
      && pr.currentRating == result.effectiveRating
      && pr.newRating == pr.currentRating + pr.ratingChange
      && (pr.rankChange == pr.currentRankTitle <==> pr.currentRankTitle == pr.newRankTitle)
  {
  }

  /** The predictor's `calculateRatingChanges`: the calculator's results, in
      the order it returns them, each paired with the participant in the same
      position of the table (see `AsWrittenPairsWrongRow` for what that
      pairing does). */
  method CalculateRatingChanges(participants: seq<Participant>, ratings: map<string, int>,
                                winProb: seq<real>, sqrt: real -> real)
    returns (predictions: seq<Prediction>)
    requires |winProb| == WinProbLen
    ensures var results := Map(Outcome(winProb, sqrt, CalculatorInput(participants, ratings)), ToResult);
      |results| == |participants| && predictions == PredictionsAsWritten(results, participants)
  {
    var calculator := new Calculator(winProb, sqrt);
    var input := CalculatorInput(participants, ratings);
    var results := calculator.CalculateRatingChanges(input);
    assert |results| == |input| == |participants|;
    predictions := PairByPosition(results, participants);
  }

  /** The `results.forEach((result, index) => ...)` loop: result `index` with
      `participants[index]`. */
  method PairByPosition(results: seq<ContestantResult>, participants: seq<Participant>)
    returns (predictions: seq<Prediction>)
    requires |results| <= |participants|
    ensures predictions == PredictionsAsWritten(results, participants)
  {
    predictions := [];
    for i := 0 to |results|
      invariant predictions == ZipWith(results[..i], participants, PredictionOf)
    {
      ZipWithSnoc(results, participants, PredictionOf, i);
      predictions := predictions + [PredictionOf(results[i], participants[i])];
    }
    assert results[..|results|] == results;
  }

  /** Under the pairing as written, prediction `k` takes its handle, rating
      change, rank and performance from result `k`, and its row index and table
      rank from row `k` of the table, whoever that row is. */
  lemma PredictionsAsWrittenCarry(results: seq<ContestantResult>, participants: seq<Participant>)
    requires |results| <= |participants|
    ensures forall k :: 0 <= k < |results| ==>
      Carries(PredictionsAsWritten(results, participants)[k], results[k], participants[k])
  {
    forall k | 0 <= k < |results|
      ensures Carries(PredictionsAsWritten(results, participants)[k], results[k], participants[k])
    {
      PredictionOfCarries(results[k], participants[k]);
    }
  }

  /** Every calculator result belongs to a participant, so the corrected pairing
      yields one prediction per participant. */
  lemma PredictionsCoverParticipants(participants: seq<Participant>, ratings: map<string, int>,
                                     winProb: seq<real>, sqrt: real -> real)
    requires |winProb| == WinProbLen
    ensures var results := Map(Outcome(winProb, sqrt, CalculatorInput(participants, ratings)), ToResult);
      |PredictionsByHandle(results, participants)| == |participants|
  {
    var results := Map(Outcome(winProb, sqrt, CalculatorInput(participants, ratings)), ToResult);
    forall i | 0 <= i < |results|
      ensures Listed(results[i].handle, participants)
    {
      ResultListed(participants, ratings, winProb, sqrt, i);
    }
    PredictionsByHandleComplete(results, participants);
  }

  /** The i-th calculator result is some participant's. */
  lemma ResultListed(participants: seq<Participant>, ratings: map<string, int>,
                     winProb: seq<real>, sqrt: real -> real, i: int)
    requires |winProb| == WinProbLen
    requires 0 <= i < |Outcome(winProb, sqrt, CalculatorInput(participants, ratings))|
    ensures Listed(Outcome(winProb, sqrt, CalculatorInput(participants, ratings))[i].handle, participants)
  {
    var input := CalculatorInput(participants, ratings);
    var out := Outcome(winProb, sqrt, input);
    OutcomeIsPermutation(winProb, sqrt, input);
    assert Map(out, Base)[i] == Base(out[i]);
    assert Base(out[i]) in multiset(Map(input, FromInput));
    var j :| 0 <= j < |input| && Map(input, FromInput)[j] == Base(out[i]);
    assert participants[j].handle == input[j].handle;
  }

  /** No two rows of the standings belong to the same handle. */
  predicate UniqueHandles(participants: seq<Participant>) {
    forall i, j :: 0 <= i < j < |participants| ==> participants[i].handle != participants[j].handle
  }

  /** The effective rating the calculator gives participant `p`. */
  function RatingOf(ratings: map<string, int>, p: Participant): int {
    EffectiveRating(KnownRating(ratings, p.handle))
  }

  /** A rating-ordered rearrangement of contestants with distinct handles cannot
      keep the first contestant first when someone else is rated higher. */
  lemma FirstMovesWhenOutrated(out: seq<Contestant>, based: seq<Contestant>, cs: seq<Contestant>, j: int)
    requires |based| == |out| && (forall i :: 0 <= i < |out| ==> based[i] == Base(out[i]))
    requires multiset(based) == multiset(cs)
    requires forall a, b :: 0 <= a < b < |out| ==> out[a].effectiveRating >= out[b].effectiveRating
    requires forall a, b :: 0 <= a < b < |cs| ==> cs[a].handle != cs[b].handle
    requires 0 < j < |cs| && cs[j].effectiveRating > cs[0].effectiveRating
    ensures |out| == |cs| && out[0].handle != cs[0].handle
  {
    assert |multiset(based)| == |multiset(cs)|;
    assert cs[j] in multiset(based);
    var k :| 0 <= k < |based| && based[k] == cs[j];
    assert out[0].effectiveRating >= out[k].effectiveRating;
    assert based[0] in multiset(cs);
    var m :| 0 <= m < |cs| && cs[m] == based[0];
    assert m != 0 && cs[m].handle == out[0].handle;
  }

  /** The first prediction carries the first row's index and table rank but
      another participant's handle. */
  predicate FirstRowMispaired(pred: seq<Prediction>, participants: seq<Participant>) {
    && |pred| > 0 && |participants| > 0
    && pred[0].handle != participants[0].handle
    && pred[0].index == participants[0].index
    && pred[0].actualRank == participants[0].rank
  }

  /** Contestant `i` stands for participant `i`: same handle, and the
      participant's effective rating. */
  predicate StandFor(cs: seq<Contestant>, participants: seq<Participant>, ratings: map<string, int>) {
    && |cs| == |participants|
    && forall i :: 0 <= i < |cs| ==>
      cs[i].handle == participants[i].handle && cs[i].effectiveRating == RatingOf(ratings, participants[i])
  }

  /** Highest effective rating first. */
  predicate RatingOrdered(out: seq<Contestant>) {
    forall a, b :: 0 <= a < b < |out| ==> out[a].effectiveRating >= out[b].effectiveRating
  }

  /** `out` is `cs` rearranged into rating order; `based` and `results` are
      `out` with the calculator's working fields cleared and `out` as handed
      back, record by record. */
  predicate Rearranged(cs: seq<Contestant>, out: seq<Contestant>, based: seq<Contestant>,
                       results: seq<ContestantResult>) {
    && RatingOrdered(out)
    && |based| == |out| && (forall i :: 0 <= i < |out| ==> based[i] == Base(out[i]))
    && multiset(based) == multiset(cs)
    && |results| == |out| && (forall i :: 0 <= i < |out| ==> results[i] == ToResult(out[i]))
  }

  /** What the calculator hands back, as far as the pairing is concerned: the
      participants' contestants, rearranged into rating order. */
  lemma CalculatorShape(participants: seq<Participant>, ratings: map<string, int>,
                        winProb: seq<real>, sqrt: real -> real)
    requires |winProb| == WinProbLen
    ensures var cs := Map(CalculatorInput(participants, ratings), FromInput);
      var out := Outcome(winProb, sqrt, CalculatorInput(participants, ratings));
      StandFor(cs, participants, ratings) && Rearranged(cs, out, Map(out, Base), Map(out, ToResult))
  {
    var input := CalculatorInput(participants, ratings);
    OutcomeIsPermutation(winProb, sqrt, input);
    OutcomeSortedByRating(winProb, sqrt, input);
  }

  /** The pairing as written, for any rating-ordered rearrangement `out` of
      contestants `cs` that stand for the participants row by row. */
  lemma AsWrittenFirstPrediction(participants: seq<Participant>, ratings: map<string, int>,
                                 cs: seq<Contestant>, out: seq<Contestant>, based: seq<Contestant>,
                                 results: seq<ContestantResult>, j: int)
    requires StandFor(cs, participants, ratings) && Rearranged(cs, out, based, results)
    requires UniqueHandles(participants)
    requires 0 < j < |participants| && RatingOf(ratings, participants[j]) > RatingOf(ratings, participants[0])
    ensures |results| == |participants|
    ensures FirstRowMispaired(PredictionsAsWritten(results, participants), participants)
  {
    FirstMovesWhenOutrated(out, based, cs, j);
    PredictionOfCarries(results[0], participants[0]);
  }

  /** Whenever a participant further down the table is rated higher than the
      first row's participant, the pairing as written gives the first prediction
      the first row's index and table rank but someone else's handle. */
  lemma AsWrittenPairsWrongRow(participants: seq<Participant>, ratings: map<string, int>,
                               winProb: seq<real>, sqrt: real -> real, j: int)
    requires |winProb| == WinProbLen && UniqueHandles(participants)
    requires 0 < j < |participants| && RatingOf(ratings, participants[j]) > RatingOf(ratings, participants[0])
    ensures FirstRowMispaired(PredictionsAsWritten(
      Map(Outcome(winProb, sqrt, CalculatorInput(participants, ratings)), ToResult), participants), participants)
  {
    CalculatorShape(participants, ratings, winProb, sqrt);
    var out := Outcome(winProb, sqrt, CalculatorInput(participants, ratings));
    AsWrittenFirstPrediction(participants, ratings, Map(CalculatorInput(participants, ratings), FromInput),
                             out, Map(out, Base), Map(out, ToResult), j);
  }

  // ---------------------------------------------------------------- accuracy

  /** The accuracy label shown beside an actual rating change. */
  datatype Accuracy = Excellent | Good | Fair | Poor

  function Abs(x: int): nat {
    if x < 0 then -x else x
  }

  /** The label for the gap between the actual and the predicted change. */
  function AccuracyOf(actual: int, predicted: int): (a: Accuracy)
    ensures a == Excellent <==> Abs(actual - predicted) <= 10
    ensures a == Poor <==> Abs(actual - predicted) > 50
  {
    var diff := Abs(actual - predicted);
    if diff <= 10 then Excellent
    else if diff <= 25 then Good
    else if diff <= 50 then Fair
    else Poor
  }

  /** Better labels are higher. */
  function Grade(a: Accuracy): nat {
    match a
    case Excellent => 3
    case Good => 2
    case Fair => 1
    case Poor => 0
  }

  /** The label depends only on the size of the gap, and a larger gap never earns
      a better label. */
  lemma AccuracyMonotone(actual: int, p1: int, p2: int)
    requires Abs(actual - p1) <= Abs(actual - p2)
    ensures Grade(AccuracyOf(actual, p1)) >= Grade(AccuracyOf(actual, p2))
    ensures AccuracyOf(actual, p1) == AccuracyOf(p1, actual)
  {
  }
}
