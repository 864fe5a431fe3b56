/** The Blind Pick quiz (quiz_blindpick.py): session setup, round navigation, the shuffled
    answer slots, per-player selections, and the reveal-and-score rule. */
module BlindPick {
  import opened Common
  import opened Text
  import opened Json

  /** The author string the program gives the truth slot, and the template key it reads first. */
  const TruthLabel: string := "Richtige Antwort"

  datatype RoundTemplate = RoundTemplate(title: string, video: string, truth: string)

  /** Who wrote a slot: one of the players, or the template's correct answer. */
  datatype Author = Player(name: string) | Truth

  datatype Slot = Slot(author: Author, text: string)

  /** Why the setup dialog refused to start the session. */
  datatype SetupError =
    | TooFewPlayers       // fewer than two non-blank name lines
    | NoTemplatePath      // the template path field is blank
    | TemplateUnreadable  // opening or decoding the file raised
    | MalformedTemplate   // the document or one of its records is not an object, or a field is not text
    | NoRounds            // `rounds` is missing, empty or not a list

  datatype Setup = Setup(players: seq<string>, templates: seq<RoundTemplate>)

  // ---------------------------------------------------------------------------
  // SetupDialog.accept
  // ---------------------------------------------------------------------------

  /** `[x.strip() for x in lines if x.strip()]`. */
  function KeepNames(lines: seq<string>): (names: seq<string>)
    ensures |names| <= |lines|
    ensures forall i :: 0 <= i < |names| ==>
      names[i] != [] && !IsSpace(names[i][0]) && !IsSpace(names[i][|names[i]| - 1])
  {
    if lines == [] then []
    else
      var name := Strip(lines[0]);
      var rest := KeepNames(lines[1..]);
      if name == [] then rest else [name] + rest
  }

  /** Filtering keeps the order of the lines: the names of two blocks of lines are the names
      of the first block followed by those of the second. */
  lemma {:induction false} KeepNamesAppend(a: seq<string>, b: seq<string>)
    ensures KeepNames(a + b) == KeepNames(a) + KeepNames(b)
  {
    if a == [] {
      assert a + b == b;
    } else {
      assert (a + b)[0] == a[0];
      assert (a + b)[1..] == a[1..] + b;
      KeepNamesAppend(a[1..], b);
    }
  }

  /** A line that is not blank is kept, stripped, in front of the names of the lines after it. */
  lemma KeepNamesKeepsFirst(lines: seq<string>)
    requires lines != [] && Strip(lines[0]) != []
    ensures KeepNames(lines) == [Strip(lines[0])] + KeepNames(lines[1..])
  {
  }

  /** When no line is blank, every line is kept, stripped, in its place. */
  lemma {:induction false} KeepNamesAllKept(lines: seq<string>)
    requires forall i :: 0 <= i < |lines| ==> Strip(lines[i]) != []
    ensures |KeepNames(lines)| == |lines|
    ensures forall i :: 0 <= i < |lines| ==> KeepNames(lines)[i] == Strip(lines[i])
  {
    if lines != [] {
      KeepNamesKeepsFirst(lines);
      KeepNamesAllKept(lines[1..]);
    }
  }

  /** The player names typed into the setup dialog, one per line. */
  function ParsePlayers(text: string): (names: seq<string>)
    ensures forall i :: 0 <= i < |names| ==>
      names[i] != [] && !IsSpace(names[i][0]) && !IsSpace(names[i][|names[i]| - 1])
  {
    KeepNames(SplitLines(text))
  }

  /** A single line yields its stripped text as the only name, or nothing when it is blank. */
  lemma ParsePlayersOneLine(line: string)
    requires NoLineBreak(line)
    ensures ParsePlayers(line) == if IsBlank(line) then [] else [Strip(line)]
  {
    SplitLinesSingle(line);
    if line == [] {
      assert IsBlank(line);
    }
  }

  /** The players of a text are those of its first line (its stripped text, or nothing when
      it is blank) followed by those of the lines after it. */
  lemma ParsePlayersNextLine(a: string, sep: string, b: string)
    requires NoLineBreak(a) && LineEnd(sep, b)
    ensures ParsePlayers(a + sep + b) == (if IsBlank(a) then [] else [Strip(a)]) + ParsePlayers(b)
  {
    SplitLinesBreak(a, sep, b);
    KeepNamesAppend([a], SplitLines(b));
    assert [a][1..] == [];
  }

  /** `r.get("Richtige Antwort") or r.get("truth") or ""`. */
  function TruthText(fields: map<string, Json>): Option<string>
  {
    if Present(fields, TruthLabel) then AsText(fields[TruthLabel]) else TextOr(fields, "truth", "")
  }

  /** One template record, the `n`-th of the file (counting from 1). Only an object is read;
      one whose fields all hold text always is, and its title is never empty (an empty or
      missing title becomes "Runde n"). */
  function TemplateOf(record: Json, n: nat): (r: Option<RoundTemplate>)
    ensures r.Some? ==> record.JObject? && r.value.title != []
    ensures record.JObject? && (forall k :: k in record.fields ==> record.fields[k].JString?) ==> r.Some?
  {
    if !record.JObject? then None
    else
      var title := TextOr(record.fields, "title", RoundLabel(n));
      var video := TextOr(record.fields, "video", "");
      var truth := TruthText(record.fields);
      if title.Some? && video.Some? && truth.Some? then Some(RoundTemplate(title.value, video.value, truth.value))
      else None
  }

  /** A record without fields gets the title "Runde n" and empty video and truth. */
  lemma EmptyRecordDefaults(n: nat)
    ensures TemplateOf(JObject(map[]), n) == Some(RoundTemplate(RoundLabel(n), "", ""))
  {
  }

  /** The truth is the "Richtige Antwort" field when that is non-empty, else the "truth" field. */
  lemma TruthKeyPriority(ra: string, truth: string)
    ensures ra != "" ==> TruthText(map[TruthLabel := JString(ra), "truth" := JString(truth)]) == Some(ra)
    ensures TruthText(map[TruthLabel := JString(""), "truth" := JString(truth)]) == Some(truth)
    ensures TruthText(map["truth" := JString(truth)]) == Some(truth)
  {
  }

  /** The records from index `k` on, record `i` read as round `i + 1` (the loop's
      `enumerate(rounds, start=1)`); `None` as soon as one of them is malformed. */
  function TemplatesFrom(records: seq<Json>, k: nat): (r: Option<seq<RoundTemplate>>)
    requires k <= |records|
    ensures r.Some? ==> |r.value| == |records| - k
    ensures r.Some? ==> forall i :: k <= i < |records| ==> TemplateOf(records[i], i + 1) == Some(r.value[i - k])
    ensures r.None? ==> exists i :: k <= i < |records| && TemplateOf(records[i], i + 1).None?
    decreases |records| - k
  {
    if k == |records| then Some([])
    else
      match TemplateOf(records[k], k + 1)
      case None => None
      case Some(t) =>
        match TemplatesFrom(records, k + 1)
        case None => None
        case Some(ts) => Some([t] + ts)
  }

  /** The `rounds` list of a template document, parsed as the setup dialog parses it. */
  function ParseTemplates(data: Json): (r: Result<seq<RoundTemplate>, SetupError>)
    ensures r.Ok? ==> r.value != []
    ensures r.Err? ==> r.error == NoRounds || r.error == MalformedTemplate
    ensures !data.JObject? ==> r == Err(MalformedTemplate)
    ensures data.JObject? ==> var rounds := Lookup(data.fields, "rounds", JArray([]));
      (rounds.JArray? && rounds.items != [] &&
       forall i :: 0 <= i < |rounds.items| ==> TemplateOf(rounds.items[i], i + 1).Some?) ==> r.Ok?
    ensures r == Err(NoRounds) <==>
      data.JObject? && var rounds := Lookup(data.fields, "rounds", JArray([])); !rounds.JArray? || rounds.items == []
    ensures r.Ok? ==> (
      && data.JObject? && "rounds" in data.fields && data.fields["rounds"].JArray?
      && var items := data.fields["rounds"].items;
         |r.value| == |items| && forall i :: 0 <= i < |items| ==> TemplateOf(items[i], i + 1) == Some(r.value[i]))
  {
    if !data.JObject? then Err(MalformedTemplate)
    else
      var rounds := Lookup(data.fields, "rounds", JArray([]));
      if !rounds.JArray? || rounds.items == [] then Err(NoRounds)
      else
        match TemplatesFrom(rounds.items, 0)
        case None => Err(MalformedTemplate)
        case Some(ts) => Ok(ts)
  }

  /** `SetupDialog.accept`: the checks in the dialog's order, and what it hands to the session. */
  function Accept(playersText: string, path: string, loaded: Option<Json>): (r: Result<Setup, SetupError>)
    ensures r == Err(TooFewPlayers) <==> |ParsePlayers(playersText)| < 2
    ensures r == Err(NoTemplatePath) <==> |ParsePlayers(playersText)| >= 2 && IsBlank(path)
    ensures r == Err(TemplateUnreadable) <==> |ParsePlayers(playersText)| >= 2 && !IsBlank(path) && loaded.None?
    ensures |ParsePlayers(playersText)| >= 2 && !IsBlank(path) && loaded.Some? && ParseTemplates(loaded.value).Err? ==>
              r == Err(ParseTemplates(loaded.value).error)
    ensures r.Ok? <==> |ParsePlayers(playersText)| >= 2 && !IsBlank(path) && loaded.Some? && ParseTemplates(loaded.value).Ok?
    ensures r.Ok? ==> r.value.players == ParsePlayers(playersText) && |r.value.players| >= 2 &&
                      r.value.templates == ParseTemplates(loaded.value).value && r.value.templates != []
  {
    var players := ParsePlayers(playersText);
    if |players| < 2 then Err(TooFewPlayers)
    else if IsBlank(path) then Err(NoTemplatePath)
    else
      match loaded
      case None => Err(TemplateUnreadable)
      case Some(data) =>
        match ParseTemplates(data)
        case Err(e) => Err(e)
        case Ok(templates) => Ok(Setup(players, templates))
  }

  // ---------------------------------------------------------------------------
  // Slots, shuffle order and column rotation
  // ---------------------------------------------------------------------------

  /** One slot per player, holding that player's answer, followed by the truth slot. */
  function Slots(players: seq<string>, answers: seq<string>, truth: string): (slots: seq<Slot>)
    requires |answers| == |players|
    ensures |slots| == |players| + 1
    ensures forall i :: 0 <= i < |players| ==> slots[i] == Slot(Player(players[i]), answers[i])
    ensures slots[|players|] == Slot(Truth, truth)
  {
    seq(|players|, i requires 0 <= i < |players| => Slot(Player(players[i]), answers[i])) + [Slot(Truth, truth)]
  }

  /** Exactly one slot belongs to the truth: the last one. */
  lemma TruthSlotIsLast(players: seq<string>, answers: seq<string>, truth: string, k: nat)
    requires |answers| == |players| && k <= |players|
    ensures Slots(players, answers, truth)[k].author == Truth <==> k == |players|
  {
  }

  /** `list(range(n))`. */
  function Range(n: nat): (r: seq<nat>)
    ensures |r| == n
  {
    seq(n, i requires 0 <= i < n => i)
  }

  /** `order` is a shuffle of `list(range(n))`. */
  predicate IsPermutation(order: seq<nat>, n: nat)
  {
    multiset(order) == multiset(Range(n))
  }

  lemma {:induction false} RangeCount(n: nat, k: nat)
    ensures multiset(Range(n))[k] == if k < n then 1 else 0
  {
    if n > 0 {
      assert Range(n) == Range(n - 1) + [n - 1];
      RangeCount(n - 1, k);
    }
  }

  /** A shuffle of `range(n)` has `n` rows, each showing a slot index below `n`, and shows
      every slot index exactly once. */
  lemma PermutationCovers(order: seq<nat>, n: nat)
    requires IsPermutation(order, n)
    ensures |order| == n
    ensures forall r :: 0 <= r < |order| ==> order[r] < n
    ensures forall k :: 0 <= k < n ==> multiset(order)[k] == 1
  {
    assert |order| == |multiset(order)| == |multiset(Range(n))| == n;
    forall r | 0 <= r < |order| ensures order[r] < n {
      assert order[r] in multiset(order);
      RangeCount(n, order[r]);
    }
    forall k | 0 <= k < n ensures multiset(order)[k] == 1 {
      RangeCount(n, k);
    }
  }

  /** The shuffled display shows the truth on exactly one row: row `r` shows it precisely when
      it shows the last slot, and the last slot is shown once. */
  lemma TruthRowUnique(players: seq<string>, answers: seq<string>, truth: string, order: seq<nat>)
    requires |answers| == |players| && IsPermutation(order, |players| + 1)
    ensures forall r :: 0 <= r < |order| ==>
      order[r] < |players| + 1 &&
      (Slots(players, answers, truth)[order[r]].author == Truth <==> order[r] == |players|)
    ensures multiset(order)[|players|] == 1
    ensures exists r :: 0 <= r < |order| && order[r] == |players|
  {
    PermutationCovers(order, |players| + 1);
    assert |players| in multiset(order);
  }

  /** `deque(players).rotate(k % n)`: a right rotation by `k` places (no rotation when empty). */
  function Rotate(players: seq<string>, k: nat): (cols: seq<string>)
    ensures |cols| == |players|
  {
    var n := |players|;
    if n == 0 then [] else
      var j := k % n;
      players[n - j..] + players[..n - j]
  }

  lemma ModBelowTwice(x: nat, n: nat)
    requires 0 < n && x < 2 * n
    ensures x % n == if x < n then x else x - n
  {
    if x >= n {
      assert x == 1 * n + (x - n);
    }
  }

  /** Column `i` of the rotated order shows player `(i - k) mod n`. */
  lemma RotateColumns(players: seq<string>, k: nat)
    ensures |Rotate(players, k)| == |players|
    ensures forall i :: 0 <= i < |players| ==>
      Rotate(players, k)[i] == players[(i + |players| - k % |players|) % |players|]
  {
    var n := |players|;
    if n > 0 {
      var j := k % n;
      var r := Rotate(players, k);
      forall i | 0 <= i < n ensures r[i] == players[(i + n - j) % n] {
        ModBelowTwice(i + n - j, n);
      }
    }
  }

  /** Rotating the columns keeps the same names, each as often as before. */
  lemma RotatePermutes(players: seq<string>, k: nat)
    ensures multiset(Rotate(players, k)) == multiset(players)
  {
    var n := |players|;
    if n > 0 {
      var j := k % n;
      assert players == players[..n - j] + players[n - j..];
    }
  }

  // ---------------------------------------------------------------------------
  // Scoring
  // ---------------------------------------------------------------------------

  /** The players whose selection is display row `row`. */
  function Pickers(selections: map<string, Option<nat>>, row: nat): set<string>
  {
    set p | p in selections && selections[p] == Some(row)
  }

  /** The scores after revealing `row`, whose slot was written by `author`: the truth pays one
      point to each player who picked it; a decoy pays its author one point for each other
      player who picked it. */
  function Award(scores: map<string, nat>, author: Author, selections: map<string, Option<nat>>, row: nat)
    : (r: map<string, nat>)
    requires author.Player? ==> author.name in scores
    ensures r.Keys == scores.Keys
    ensures forall p :: p in scores ==> r[p] >= scores[p]
  {
    match author
    case Truth => map p | p in scores :: scores[p] + (if p in Pickers(selections, row) then 1 else 0)
    case Player(a) => scores[a := scores[a] + |Pickers(selections, row) - {a}|]
  }

  /** Revealing the truth raises by one exactly the scores of the players who picked it. */
  lemma TruthRevealPaysPickers(scores: map<string, nat>, selections: map<string, Option<nat>>, row: nat, p: string)
    requires p in scores
    ensures Award(scores, Truth, selections, row)[p] ==
      scores[p] + if p in selections && selections[p] == Some(row) then 1 else 0
  {
  }

  /** Revealing a decoy changes no score but its author's, which rises by the number of other
      players who picked it; the author picking their own decoy earns nothing. */
  lemma DecoyRevealPaysAuthor(scores: map<string, nat>, a: string, selections: map<string, Option<nat>>, row: nat)
    requires a in scores
    ensures forall p :: p in scores && p != a ==> Award(scores, Player(a), selections, row)[p] == scores[p]
    ensures Award(scores, Player(a), selections, row)[a] == scores[a] + |Pickers(selections, row) - {a}|
    ensures Pickers(selections, row) <= {a} ==> Award(scores, Player(a), selections, row) == scores
  {
    if Pickers(selections, row) <= {a} {
      assert Pickers(selections, row) - {a} == {};
    }
  }

  /** The shuffle of the round played in ThreePlayerRound, `[3, 1, 0, 2]`, is one of `range(4)`. */
  lemma ThreePlayerShuffle()
    ensures IsPermutation([3, 1, 0, 2], 4)
  {
    assert Range(4) == [0, 1, 2, 3];
    assert [3, 1, 0, 2] == [3] + [1] + [0] + [2];
    assert [0, 1, 2, 3] == [0] + [1] + [2] + [3];
  }

  /** The display of the round played in ThreePlayerRound: the shuffle `[3, 1, 0, 2]` shows the
      truth, b's, a's and c's slot in rows 0 to 3. */
  lemma ThreePlayerRoundShown(a: string, b: string, c: string)
    ensures var slots := Slots([a, b, c], ["Paris", "London", ""], "Paris");
      var order := [3, 1, 0, 2];
      slots[order[0]].author == Truth && slots[order[1]].author == Player(b) &&
      slots[order[2]].author == Player(a) && slots[order[3]].author == Player(c)
  {
  }

  /** A round with three players a, b and c, who answer "Paris",
      "London" and nothing to the truth "Paris"; a picks the truth (row 0), b their own decoy
      (row 1), c a's decoy (row 2). Revealing those three rows leaves a at 2 and b and c at 0. */
  lemma ThreePlayerRound(a: string, b: string, c: string)
    requires a != b && b != c && a != c
    ensures var selections := map[a := Some(0), b := Some(1), c := Some(2)];
      var s1 := Award(map[a := 0, b := 0, c := 0], Truth, selections, 0);
      var s2 := Award(s1, Player(b), selections, 1);
      Award(s2, Player(a), selections, 2) == map[a := 2, b := 0, c := 0]
  {
    var selections := map[a := Some(0), b := Some(1), c := Some(2)];
    assert Pickers(selections, 0) == {a};
    assert Pickers(selections, 1) == {b};
    assert Pickers(selections, 2) == {c};
    var s1 := Award(map[a := 0, b := 0, c := 0], Truth, selections, 0);
    assert s1 == map[a := 1, b := 0, c := 0];
    DecoyRevealPaysAuthor(s1, b, selections, 1);
    DecoyRevealPaysAuthor(s1, a, selections, 2);
    assert {c} - {a} == {c};
  }

  /** The truth branch of the scoring loop of `reveal_row`: every player whose button group
      has `row` checked gains a point. */
  method PayTruthPickers(scores: map<string, nat>, selections: map<string, Option<nat>>, row: nat)
    returns (r: map<string, nat>)
    requires selections.Keys == scores.Keys
    ensures r == Award(scores, Truth, selections, row)
  {
    ghost var picked := Pickers(selections, row);
    r := scores;
    var pending := selections.Keys;
    while pending != {}
      invariant pending <= selections.Keys
      invariant r.Keys == scores.Keys
      invariant forall p :: p in r ==> r[p] == scores[p] + if p in picked && p !in pending then 1 else 0
      decreases |pending|
    {
      var p :| p in pending;
      if selections[p] == Some(row) {
        r := r[p := r[p] + 1];
      }
      pending := pending - {p};
    }
  }

  /** The decoy branch of the scoring loop of `reveal_row`: the decoy's author `a` gains a point
      for every other player whose button group has `row` checked. */
  method PayDecoyAuthor(scores: map<string, nat>, a: string, selections: map<string, Option<nat>>, row: nat)
    returns (r: map<string, nat>)
    requires selections.Keys == scores.Keys && a in scores
    ensures r == Award(scores, Player(a), selections, row)
  {
    ghost var fooled := Pickers(selections, row) - {a};
    r := scores;
    var pending := selections.Keys;
    assert fooled - pending == {};
    while pending != {}
      invariant pending <= selections.Keys
      invariant DecoyPaidSoFar(r, scores, a, fooled, pending)
      decreases |pending|
    {
      var p :| p in pending;
      FooledByRow(selections, row, a, p);
      if selections[p] == Some(row) && p != a {
        DecoyPaysOneMore(r, scores, a, fooled, pending, p);
        r := r[a := r[a] + 1];
      } else {
        DecoySkips(r, scores, a, fooled, pending, p);
      }
      pending := pending - {p};
    }
    DecoyAwardByParts(r, scores, a, selections, row);
  }

  /** The loop invariant of PayDecoyAuthor: only the author's score has moved, by the number
      of fooled players already looked at (those no longer `pending`). */
  ghost predicate DecoyPaidSoFar(r: map<string, nat>, scores: map<string, nat>, a: string,
                                 fooled: set<string>, pending: set<string>)
  {
    && r.Keys == scores.Keys && a in r
    && r[a] == scores[a] + |fooled - pending|
    && forall p :: p in r && p != a ==> r[p] == scores[p]
  }

  lemma DecoyPaysOneMore(r: map<string, nat>, scores: map<string, nat>, a: string,
                         fooled: set<string>, pending: set<string>, p: string)
    requires DecoyPaidSoFar(r, scores, a, fooled, pending) && p in pending && p in fooled
    ensures DecoyPaidSoFar(r[a := r[a] + 1], scores, a, fooled, pending - {p})
  {
    CountOneMore(fooled, pending, p);
  }

  lemma DecoySkips(r: map<string, nat>, scores: map<string, nat>, a: string,
                   fooled: set<string>, pending: set<string>, p: string)
    requires DecoyPaidSoFar(r, scores, a, fooled, pending) && p in pending && p !in fooled
    ensures DecoyPaidSoFar(r, scores, a, fooled, pending - {p})
  {
    CountOneMore(fooled, pending, p);
  }

  /** A player other than the author is fooled by the decoy on `row` when they picked that row. */
  lemma FooledByRow(selections: map<string, Option<nat>>, row: nat, a: string, p: string)
    requires p in selections
    ensures p in Pickers(selections, row) - {a} <==> selections[p] == Some(row) && p != a
  {
  }

  /** Scores over the same players that differ from `scores` only in the decoy author's, which
      is higher by the number of players the decoy fooled, are the awarded scores. */
  lemma DecoyAwardByParts(r: map<string, nat>, scores: map<string, nat>, a: string,
                          selections: map<string, Option<nat>>, row: nat)
    requires r.Keys == scores.Keys && a in scores
    requires r[a] == scores[a] + |Pickers(selections, row) - {a}|
    requires forall p :: p in r && p != a ==> r[p] == scores[p]
    ensures r == Award(scores, Player(a), selections, row)
  {
  }

  /** Taking `p` out of `pending` uncovers one more element of `s` when `p` belongs to it. */
  lemma CountOneMore<T>(s: set<T>, pending: set<T>, p: T)
    requires p in pending
    ensures |s - (pending - {p})| == |s - pending| + if p in s then 1 else 0
  {
    if p in s {
      assert s - (pending - {p}) == (s - pending) + {p};
    } else {
      assert s - (pending - {p}) == s - pending;
    }
  }

  /** The author string the program stores in a slot: the player's name, or the truth label. */
  function AuthorLabel(author: Author): string
  {
    match author
    case Player(name) => name
    case Truth => TruthLabel
  }

  /** The scoring rule as the program writes it: a slot counts as the truth when its author
      string equals "Richtige Antwort". */
  function AwardAsWritten(scores: map<string, nat>, authorText: string, selections: map<string, Option<nat>>, row: nat)
    : (r: map<string, nat>)
    requires authorText != TruthLabel ==> authorText in scores
    ensures r.Keys == scores.Keys
  {
    if authorText == TruthLabel then Award(scores, Truth, selections, row)
    else Award(scores, Player(authorText), selections, row)
  }

  /** A player named "Richtige Antwort" is scored as the truth: when Bob picks that player's
      decoy, the string comparison pays Bob, where the rule pays the decoy's author. */
  lemma TruthLabelCollision()
    ensures
      var players := [TruthLabel, "Bob"];
      var slots := Slots(players, ["Paris", "Rome"], "Berlin");
      var selections := map[TruthLabel := None, "Bob" := Some(0)];
      var scores: map<string, nat> := map[TruthLabel := 0, "Bob" := 0];
      slots[0].author == Player(TruthLabel) &&
      AwardAsWritten(scores, AuthorLabel(slots[0].author), selections, 0)["Bob"] == 1 &&
      Award(scores, slots[0].author, selections, 0) == map[TruthLabel := 1, "Bob" := 0]
  {
    var selections := map[TruthLabel := None, "Bob" := Some(0)];
    assert TruthLabel != "Bob";
    assert Pickers(selections, 0) == {"Bob"};
    assert {"Bob"} - {TruthLabel} == {"Bob"};
  }

  // ---------------------------------------------------------------------------
  // Session state
  // ---------------------------------------------------------------------------

  function PlayerSet(players: seq<string>): set<string>
  {
    set p | p in players
  }

  /** `{p: None for p in players}`. */
  function NoSelections(players: seq<string>): (m: map<string, Option<nat>>)
    ensures m.Keys == PlayerSet(players)
    ensures forall p :: p in m ==> m[p] == None
  {
    map p | p in players :: None
  }

  /** `{p: 0 for p in players}`. */
  function ZeroScores(players: seq<string>): (m: map<string, nat>)
    ensures m.Keys == PlayerSet(players)
    ensures forall p :: p in m ==> m[p] == 0
  {
    map p | p in players :: 0
  }

  /** `[answer_edits[p].text() for p in players]`. */
  function AnswersOf(players: seq<string>, answerTexts: map<string, string>): (answers: seq<string>)
    requires forall p :: p in players ==> p in answerTexts
    ensures |answers| == |players|
    ensures forall i :: 0 <= i < |players| ==> answers[i] == answerTexts[players[i]]
  {
    seq(|players|, i requires 0 <= i < |players| => answerTexts[players[i]])
  }

  datatype Navigation = NotSetUp | AtBoundary | Moved

  datatype RevealOutcome = NotShuffled | OutOfRange | AlreadyRevealed | Revealed(author: Author)

  /** The per-round state: answers, shuffle, reveal flags and selections. */
  class RoundRuntime {
    var playersAnswers: seq<string>
    var shuffledOrder: seq<nat>
    var revealed: array<bool>
    var selections: map<string, Option<nat>>

    /** The runtime a round starts with: blank answers, no shuffle, nothing selected. */
    constructor Blank(players: seq<string>)
      ensures playersAnswers == seq(|players|, _ => "")
      ensures shuffledOrder == [] && revealed.Length == 0 && fresh(revealed)
      ensures selections == NoSelections(players)
    {
      playersAnswers := seq(|players|, _ => "");
      shuffledOrder := [];
      revealed := new bool[0];
      selections := NoSelections(players);
    }
  }

  /** The moderator console's session: players, templates, scores, round index and the runtime
      of the current round. */
  class ControlWindow {
    var players: seq<string>
    var templates: seq<RoundTemplate>
    var scores: map<string, nat>
    var roundIndex: nat
    var runtime: RoundRuntime

    /** The session fields agree: the round index points into the templates, and every player
        has a score. */
    ghost predicate SessionValid()
      reads this
    {
      && (if templates == [] then roundIndex == 0 else roundIndex < |templates|)
      && scores.Keys == PlayerSet(players)
    }

    /** The session is consistent, and so is the runtime of its current round. */
    ghost predicate Valid()
      reads this, runtime
    {
      && SessionValid()
      && |runtime.playersAnswers| == |players|
      && runtime.selections.Keys == PlayerSet(players)
      && (runtime.shuffledOrder == [] ==> runtime.revealed.Length == 0)
      && (runtime.shuffledOrder != [] ==>
            templates != [] && IsPermutation(runtime.shuffledOrder, |players| + 1) &&
            |runtime.shuffledOrder| == runtime.revealed.Length == |players| + 1)
    }

    /** The runtime holds no answers, no shuffle and no selection. */
    ghost predicate RoundIsBlank()
      reads this, runtime
    {
      && runtime.playersAnswers == seq(|players|, _ => "")
      && runtime.shuffledOrder == []
      && runtime.revealed.Length == 0
      && runtime.selections == NoSelections(players)
    }

    /** The slots of the current round, in slot order (`base_slots`). */
    function CurrentSlots(): (slots: seq<Slot>)
      reads this, runtime
      requires templates != [] && roundIndex < |templates| && |runtime.playersAnswers| == |players|
      ensures |slots| == |players| + 1
    {
      Slots(players, runtime.playersAnswers, templates[roundIndex].truth)
    }

    /** The slot shown on display row `row` (`view_slots[row]`). */
    function DisplayedSlot(row: int): (slot: Slot)
      reads this, runtime
      requires Valid() && runtime.shuffledOrder != [] && 0 <= row < |runtime.shuffledOrder|
      ensures slot.author.Player? ==> slot.author.name in players
    {
      PermutationCovers(runtime.shuffledOrder, |players| + 1);
      var k := runtime.shuffledOrder[row];
      assert k < |players| ==> CurrentSlots()[k].author == Player(players[k]);
      CurrentSlots()[k]
    }

    /** `_rotated_players`: the players in the column order of the current round. */
    function RotatedPlayers(): (cols: seq<string>)
      reads this
      ensures multiset(cols) == multiset(players)
    {
      RotatePermutes(players, roundIndex);
      Rotate(players, roundIndex)
    }

    constructor ()
      ensures Valid() && RoundIsBlank() && fresh(runtime)
      ensures players == [] && templates == [] && scores == map[] && roundIndex == 0
    {
      players := [];
      templates := [];
      scores := map[];
      roundIndex := 0;
      runtime := new RoundRuntime.Blank([]);
    }

    /** `run_setup`: on an accepted dialog, a new session at round 0 with every score 0. */
    method RunSetup(playersText: string, path: string, loaded: Option<Json>) returns (r: Result<Setup, SetupError>)
      requires Valid()
      modifies this
      ensures Valid()
      ensures r == Accept(playersText, path, loaded)
      ensures r.Err? ==> unchanged(this)
      ensures r.Ok? ==>
        && players == r.value.players && templates == r.value.templates
        && scores == ZeroScores(players) && roundIndex == 0
        && fresh(runtime) && RoundIsBlank()
    {
      r := Accept(playersText, path, loaded);
      if r.Ok? {
        StartSession(r.value);
      }
    }

    /** The part of `run_setup` after the dialog is accepted: install the players and templates,
        zero every score, go to round 0 and start it afresh. */
    method StartSession(setup: Setup)
      requires setup.templates != []
      modifies this
      ensures Valid()
      ensures players == setup.players && templates == setup.templates
      ensures scores == ZeroScores(players) && roundIndex == 0
      ensures fresh(runtime) && RoundIsBlank()
    {
      players := setup.players;
      templates := setup.templates;
      scores := ZeroScores(setup.players);
      roundIndex := 0;
      RefreshRound();
    }

    /** `refresh_round`: a set-up session starts the current round afresh; scores stay. */
    method RefreshRound()
      requires SessionValid() && (templates == [] ==> Valid())
      modifies this`runtime
      ensures Valid()
      ensures old(templates) == [] ==> runtime == old(runtime)
      ensures old(templates) != [] ==> fresh(runtime) && RoundIsBlank()
    {
      if templates != [] {
        runtime := new RoundRuntime.Blank(players);
      }
    }

    /** `prev_round`: one round back unless at the first round; refused before setup. */
    method PrevRound() returns (nav: Navigation)
      requires Valid()
      modifies this`roundIndex, this`runtime
      ensures Valid()
      ensures nav == NotSetUp <==> templates == []
      ensures nav == Moved <==> templates != [] && old(roundIndex) > 0
      ensures nav == Moved ==> roundIndex == old(roundIndex) - 1 && fresh(runtime) && RoundIsBlank()
      ensures nav != Moved ==> roundIndex == old(roundIndex) && runtime == old(runtime)
    {
      if templates == [] {
        return NotSetUp;
      }
      if roundIndex > 0 {
        roundIndex := roundIndex - 1;
        RefreshRound();
        nav := Moved;
      } else {
        nav := AtBoundary;
      }
    }

    /** `next_round`: one round forward unless at the last round; refused before setup. */
    method NextRound() returns (nav: Navigation)
      requires Valid()
      modifies this`roundIndex, this`runtime
      ensures Valid()
      ensures nav == NotSetUp <==> templates == []
      ensures nav == Moved <==> templates != [] && old(roundIndex) < |templates| - 1
      ensures nav == Moved ==> roundIndex == old(roundIndex) + 1 && fresh(runtime) && RoundIsBlank()
      ensures nav != Moved ==> roundIndex == old(roundIndex) && runtime == old(runtime)
    {
      if templates == [] {
        return NotSetUp;
      }
      if roundIndex < |templates| - 1 {
        roundIndex := roundIndex + 1;
        RefreshRound();
        nav := Moved;
      } else {
        nav := AtBoundary;
      }
    }

    /** `shuffle_and_show`: takes every player's typed answer, installs the shuffled order
        `order` (the result of `random.shuffle`), hides every row and clears every selection. */
    method ShuffleAndShow(answerTexts: map<string, string>, order: seq<nat>) returns (shown: bool)
      requires Valid()
      requires forall p :: p in players ==> p in answerTexts
      requires IsPermutation(order, |players| + 1)
      modifies runtime
      ensures Valid()
      ensures shown <==> templates != []
      ensures !shown ==> unchanged(runtime)
      ensures shown ==>
        && runtime.playersAnswers == AnswersOf(players, answerTexts)
        && runtime.shuffledOrder == order
        && fresh(runtime.revealed) && runtime.revealed[..] == seq(|players| + 1, _ => false)
        && runtime.selections == NoSelections(players)
    {
      if templates == [] {
        return false;
      }
      PermutationCovers(order, |players| + 1);
      runtime.playersAnswers := AnswersOf(players, answerTexts);
      runtime.shuffledOrder := order;
      runtime.revealed := new bool[|order|](_ => false);
      runtime.selections := NoSelections(players);
      shown := true;
    }

    /** The selection handler of a player's button group: the player's pick becomes `row`,
        replacing any earlier pick; nobody else's pick changes. */
    method Select(player: string, row: nat)
      requires Valid() && player in players
      modifies runtime`selections
      ensures Valid()
      ensures runtime.selections == old(runtime.selections)[player := Some(row)]
      ensures runtime.selections[player] == Some(row)
      ensures forall p :: p in runtime.selections && p != player ==> runtime.selections[p] == old(runtime.selections)[p]
    {
      runtime.selections := runtime.selections[player := Some(row)];
    }

    /** `reveal_row`: refused before a shuffle, for a row outside the display and for a row
        already revealed; otherwise the row's flag is set and its slot is scored. */
    method RevealRow(row: int) returns (outcome: RevealOutcome)
      requires Valid()
      modifies this`scores, runtime.revealed
      ensures Valid()
      ensures outcome == NotShuffled <==> runtime.shuffledOrder == []
      ensures outcome == OutOfRange <==> runtime.shuffledOrder != [] && !(0 <= row < runtime.revealed.Length)
      ensures outcome == AlreadyRevealed <==>
        runtime.shuffledOrder != [] && 0 <= row < runtime.revealed.Length && old(runtime.revealed[row])
      ensures !outcome.Revealed? ==> scores == old(scores) && runtime.revealed[..] == old(runtime.revealed[..])
      ensures outcome.Revealed? ==>
        && runtime.shuffledOrder != [] && 0 <= row < runtime.revealed.Length
        && outcome.author == DisplayedSlot(row).author
        && (outcome.author.Player? ==> outcome.author.name in old(scores))
        && scores == Award(old(scores), outcome.author, runtime.selections, row)
        && runtime.revealed[..] == old(runtime.revealed[..])[row := true]
    {
      if runtime.shuffledOrder == [] {
        return NotShuffled;
      }
      if !(0 <= row < runtime.revealed.Length) {
        return OutOfRange;
      }
      if runtime.revealed[row] {
        return AlreadyRevealed;
      }
      var author := DisplayedSlot(row).author;
      match author {
        case Truth =>
          scores := PayTruthPickers(scores, runtime.selections, row);
        case Player(a) =>
          assert a in players;
          scores := PayDecoyAuthor(scores, a, runtime.selections, row);
      }
      runtime.revealed[row] := true;
      outcome := Revealed(author);
    }
  }
}
