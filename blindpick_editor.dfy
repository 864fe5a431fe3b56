/** The round editor of the Blind Pick quiz (quiz_blindpick_editor.py): an ordered list of
    rounds with a current row, edited in place, loaded from and saved to a template document. */
module Editor {
  import opened Common
  import opened Text
  import opened Json

  /** One round of a template: its title, the path of its video and its correct answer. */
  datatype Round = Round(title: string, video: string, truth: string)

  /** `default_round(n)`: a round titled "Runde n" with neither video nor answer. */
  function DefaultRound(n: nat): (r: Round)
    ensures !IsBlank(r.title) && r.video == "" && r.truth == ""
  {
    RoundLabelNotBlank(n);
    Round(RoundLabel(n), "", "")
  }

  // ---------------------------------------------------------------------------
  // List operations the editor performs on `rounds`
  // ---------------------------------------------------------------------------

  /** `lst.pop(i)` as a value: the list without its `i`-th element. */
  function Remove<T>(s: seq<T>, i: nat): (r: seq<T>)
    requires i < |s|
    ensures |r| == |s| - 1
    ensures forall j :: 0 <= j < i ==> r[j] == s[j]
    ensures forall j :: i <= j < |r| ==> r[j] == s[j + 1]
  {
    s[..i] + s[i + 1..]
  }

  /** Removing one element takes exactly that element out of the multiset. */
  lemma RemoveMultiset<T>(s: seq<T>, i: nat)
    requires i < |s|
    ensures multiset(Remove(s, i)) + multiset{s[i]} == multiset(s)
  {
    assert s == s[..i] + [s[i]] + s[i + 1..];
  }

  /** `lst.insert(i, x)`: an index past the end appends, as Python does. */
  function Insert<T>(s: seq<T>, i: nat, x: T): (r: seq<T>)
    ensures |r| == |s| + 1
    ensures r[InsertIndex(s, i)] == x
    ensures Remove(r, InsertIndex(s, i)) == s
  {
    var k := InsertIndex(s, i);
    assert (s[..k] + [x] + s[k..])[..k] == s[..k];
    assert (s[..k] + [x] + s[k..])[k + 1..] == s[k..];
    s[..k] + [x] + s[k..]
  }

  /** Where `lst.insert(i, x)` puts `x`. */
  function InsertIndex<T>(s: seq<T>, i: nat): (k: nat)
    ensures k <= |s|
  {
    if i <= |s| then i else |s|
  }

  lemma InsertMultiset<T>(s: seq<T>, i: nat, x: T)
    ensures multiset(Insert(s, i, x)) == multiset(s) + multiset{x}
  {
    var k := InsertIndex(s, i);
    assert s == s[..k] + s[k..];
  }

  /** `lst[i], lst[j] = lst[j], lst[i]`. */
  function Swap<T>(s: seq<T>, i: nat, j: nat): (r: seq<T>)
    requires i < |s| && j < |s|
    ensures |r| == |s| && r[i] == s[j] && r[j] == s[i]
    ensures forall k :: 0 <= k < |s| && k != i && k != j ==> r[k] == s[k]
  {
    s[i := s[j]][j := s[i]]
  }

  /** A swap reorders the list without adding or losing an element. */
  lemma SwapMultiset<T>(s: seq<T>, i: nat, j: nat)
    requires i < |s| && j < |s|
    ensures multiset(Swap(s, i, j)) == multiset(s)
  {
    var t := s[i := s[j]];
    assert multiset(t) == multiset(s) - multiset{s[i]} + multiset{s[j]};
    assert multiset(t[j := s[i]]) == multiset(t) - multiset{t[j]} + multiset{s[i]};
  }

  /** Swapping twice restores the list. */
  lemma SwapTwice<T>(s: seq<T>, i: nat, j: nat)
    requires i < |s| && j < |s|
    ensures Swap(Swap(s, i, j), i, j) == s
  {
  }

  /** Where the drag-moved element lands: the drop row, one lower when the element came from
      above it (its own removal shifted the rows below it up by one). */
  function DropIndex(start: nat, dest: nat): nat
  {
    if dest > start then dest - 1 else dest
  }

  /** The list after dragging the element at `start` to the drop row `dest`: pop, then insert. */
  function MoveTo<T>(s: seq<T>, start: nat, dest: nat): (r: seq<T>)
    requires start < |s|
    ensures |r| == |s|
  {
    Insert(Remove(s, start), DropIndex(start, dest), s[start])
  }

  /** A drag move keeps every element, puts the dragged one where it was dropped and keeps the
      order of all the others. */
  lemma MoveToPermutes<T>(s: seq<T>, start: nat, dest: nat)
    requires start < |s|
    ensures multiset(MoveTo(s, start, dest)) == multiset(s)
    ensures var k := InsertIndex(Remove(s, start), DropIndex(start, dest));
      MoveTo(s, start, dest)[k] == s[start] && Remove(MoveTo(s, start, dest), k) == Remove(s, start)
  {
    RemoveMultiset(s, start);
    InsertMultiset(Remove(s, start), DropIndex(start, dest), s[start]);
  }

  /** Dropping an element on its own row, or just below it, leaves the list as it was. */
  lemma MoveToSameRow<T>(s: seq<T>, start: nat, dest: nat)
    requires start < |s| && (dest == start || dest == start + 1)
    ensures MoveTo(s, start, dest) == s
  {
    var rest := Remove(s, start);
    assert InsertIndex(rest, DropIndex(start, dest)) == start;
    assert rest[..start] == s[..start];
    assert rest[start..] == s[start + 1..];
    assert s == s[..start] + [s[start]] + s[start + 1..];
  }

  // ---------------------------------------------------------------------------
  // Opening a document: `_open_document`
  // ---------------------------------------------------------------------------

  /** The record of the `n`-th round (counting from 1) as the editor reads it; `None` when it is
      not an object or one of its three fields holds a truthy value that is not text. Only the
      key "truth" is read for the answer. */
  function RoundOf(record: Json, n: nat): (r: Option<Round>)
    ensures r.Some? ==> record.JObject?
    ensures record.JObject? && record.fields == map[] ==> r == Some(DefaultRound(n))
  {
    if !record.JObject? then None
    else
      var title := TextOr(record.fields, "title", RoundLabel(n));
      var video := TextOr(record.fields, "video", "");
      var truth := TextOr(record.fields, "truth", "");
      if title.Some? && video.Some? && truth.Some? then Some(Round(title.value, video.value, truth.value))
      else None
  }

  /** The editor ignores the "Richtige Antwort" key that the quiz reads before "truth". */
  lemma RoundOfIgnoresQuizKey(fields: map<string, Json>, value: Json, n: nat)
    ensures RoundOf(JObject(fields["Richtige Antwort" := value]), n) == RoundOf(JObject(fields), n)
  {
    var f := fields["Richtige Antwort" := value];
    assert "title" in f <==> "title" in fields;
    assert "video" in f <==> "video" in fields;
    assert "truth" in f <==> "truth" in fields;
  }

  /** The rounds the loading loop appends from the records numbered `first`, `first + 1`, …:
      every record up to the first malformed one. */
  function LoadRounds(records: seq<Json>, first: nat): (r: seq<Round>)
    ensures |r| <= |records|
    ensures forall i :: 0 <= i < |r| ==> RoundOf(records[i], first + i) == Some(r[i])
    ensures |r| < |records| ==> RoundOf(records[|r|], first + |r|).None?
    decreases |records|
  {
    if records == [] then []
    else
      match RoundOf(records[0], first)
      case None => []
      case Some(round) =>
        var rest := LoadRounds(records[1..], first + 1);
        assert forall i :: 1 <= i <= |rest| ==> records[i] == records[1..][i - 1];
        [round] + rest
  }

  /** How a request to open a document ended. */
  datatype OpenOutcome =
    | OpenCancelled                 // no file was chosen
    | Unreadable                    // reading or decoding the file raised
    | NotADocument                  // the document is not an object
    | RoundsNotList                 // `rounds` is not a list
    | PartiallyLoaded(record: nat)  // the record with this number (from 1) is malformed
    | Loaded(wrongType: bool)       // every record was loaded; `quiz_type` was not "blindpick"

  // ---------------------------------------------------------------------------
  // Validation and saving: `_validate`, `_save_document`
  // ---------------------------------------------------------------------------

  /** Why a document cannot be saved; rounds are numbered from 1, as in the messages. */
  datatype ValidationError = NoRounds | EmptyVideo(round: nat) | EmptyTruth(round: nat)

  /** A round that validation refuses: its video or its answer is blank. */
  predicate Incomplete(r: Round)
  {
    IsBlank(r.video) || IsBlank(r.truth)
  }

  /** The index of the first incomplete round, or the length when there is none. */
  function FirstIncomplete(rounds: seq<Round>): (k: nat)
    ensures k <= |rounds|
    ensures forall i :: 0 <= i < k ==> !Incomplete(rounds[i])
    ensures k < |rounds| ==> Incomplete(rounds[k])
  {
    if rounds == [] || Incomplete(rounds[0]) then 0 else 1 + FirstIncomplete(rounds[1..])
  }

  /** The answer of `_validate`: no rounds, else the first incomplete round, blank video
      reported before blank answer; `None` when every round is complete. */
  function ValidationOf(rounds: seq<Round>): (err: Option<ValidationError>)
    ensures err.None? <==> rounds != [] && forall i :: 0 <= i < |rounds| ==> !Incomplete(rounds[i])
    ensures err == Some(NoRounds) <==> rounds == []
    ensures err.Some? && err.value.EmptyVideo? ==>
      var k := err.value.round - 1;
      0 <= k < |rounds| && IsBlank(rounds[k].video) && forall i :: 0 <= i < k ==> !Incomplete(rounds[i])
    ensures err.Some? && err.value.EmptyTruth? ==>
      var k := err.value.round - 1;
      0 <= k < |rounds| && !IsBlank(rounds[k].video) && IsBlank(rounds[k].truth) &&
      forall i :: 0 <= i < k ==> !Incomplete(rounds[i])
  {
    if rounds == [] then Some(NoRounds)
    else
      var k := FirstIncomplete(rounds);
      if k == |rounds| then None
      else if IsBlank(rounds[k].video) then Some(EmptyVideo(k + 1))
      else Some(EmptyTruth(k + 1))
  }

  /** The `n`-th round with a blank title replaced by "Runde n". */
  function FillTitle(r: Round, n: nat): Round
  {
    if IsBlank(r.title) then r.(title := RoundLabel(n)) else r
  }

  /** The rounds after validation has passed over the first `upto` of them. */
  function FillTitles(rounds: seq<Round>, upto: nat): (filled: seq<Round>)
    requires upto <= |rounds|
    ensures |filled| == |rounds|
    ensures forall i :: upto <= i < |rounds| ==> filled[i] == rounds[i]
  {
    seq(|rounds|, i requires 0 <= i < |rounds| => if i < upto then FillTitle(rounds[i], i + 1) else rounds[i])
  }

  /** Validation changes no video and no answer, only titles, and only blank ones. */
  lemma FillTitlesKeepsAnswers(rounds: seq<Round>, upto: nat)
    requires upto <= |rounds|
    ensures |FillTitles(rounds, upto)| == |rounds|
    ensures forall i :: 0 <= i < |rounds| ==>
      var r := FillTitles(rounds, upto)[i];
      r.video == rounds[i].video && r.truth == rounds[i].truth &&
      (r.title == rounds[i].title || (i < upto && IsBlank(rounds[i].title) && r.title == RoundLabel(i + 1)))
  {
  }

  /** A round the validation passes has a title, a video and an answer that are not blank. */
  predicate Complete(r: Round)
  {
    !IsBlank(r.title) && !IsBlank(r.video) && !IsBlank(r.truth)
  }

  /** After a successful validation every round is complete. */
  lemma {:induction false} ValidatedRoundsComplete(rounds: seq<Round>)
    requires ValidationOf(rounds).None?
    ensures FirstIncomplete(rounds) == |rounds|
    ensures forall i :: 0 <= i < |rounds| ==> Complete(FillTitles(rounds, |rounds|)[i])
  {
    assert FirstIncomplete(rounds) == |rounds|;
    forall i | 0 <= i < |rounds|
      ensures Complete(FillTitles(rounds, |rounds|)[i])
    {
      FillTitleComplete(rounds[i], i + 1);
    }
  }

  /** A complete round stays complete, and an incomplete one with a blank title becomes
      complete once its title is filled. */
  lemma FillTitleComplete(r: Round, n: nat)
    requires !Incomplete(r)
    ensures Complete(FillTitle(r, n))
  {
    RoundLabelNotBlank(n);
  }

  /** Validating an already validated list changes nothing and succeeds again. */
  lemma ValidateIdempotent(rounds: seq<Round>)
    requires ValidationOf(rounds).None?
    ensures var filled := FillTitles(rounds, |rounds|);
      ValidationOf(filled).None? && FillTitles(filled, |filled|) == filled
  {
    ValidatedRoundsComplete(rounds);
    var filled := FillTitles(rounds, |rounds|);
    assert forall i :: 0 <= i < |filled| ==> !Incomplete(filled[i]);
    assert FillTitles(filled, |filled|) == filled;
  }

  /** `asdict(r)`. */
  function RoundRecord(r: Round): (record: Json)
    ensures record.JObject? && record.fields.Keys == {"title", "video", "truth"}
    ensures forall k :: k in record.fields ==> record.fields[k].JString?
  {
    JObject(map["title" := JString(r.title), "video" := JString(r.video), "truth" := JString(r.truth)])
  }

  /** The document `_save_document` writes. */
  function Payload(rounds: seq<Round>): (doc: Json)
    ensures doc.JObject? && "quiz_type" in doc.fields && doc.fields["quiz_type"] == JString("blindpick")
    ensures "rounds" in doc.fields && doc.fields["rounds"].JArray?
    ensures var items := doc.fields["rounds"].items;
      |items| == |rounds| && forall i :: 0 <= i < |rounds| ==> items[i] == RoundRecord(rounds[i])
  {
    JObject(map[
      "quiz_type" := JString("blindpick"),
      "rounds" := JArray(seq(|rounds|, i requires 0 <= i < |rounds| => RoundRecord(rounds[i])))])
  }

  /** How a request to save ended. */
  datatype SaveOutcome =
    | SaveCancelled              // no path was chosen
    | Invalid(error: ValidationError)
    | WriteFailed                // opening or writing the file raised
    | Saved(document: Json)

  /** The outcome of writing `rounds` to the current path, `writeOk` telling whether the write
      succeeds: the validation error, or the payload of the validated rounds. */
  function SaveOf(rounds: seq<Round>, writeOk: bool): (r: SaveOutcome)
    ensures r.Invalid? <==> !ValidationOf(rounds).None?
    ensures r.Saved? <==> ValidationOf(rounds).None? && writeOk
    ensures r.Saved? ==> r.document == Payload(FillTitles(rounds, |rounds|))
  {
    match ValidationOf(rounds)
    case Some(e) => Invalid(e)
    case None => if writeOk then Saved(Payload(FillTitles(rounds, |rounds|))) else WriteFailed
  }

  /** A round with non-empty fields comes back unchanged from its record. */
  lemma RoundRecordRoundTrip(r: Round, n: nat)
    requires r.title != "" && r.video != "" && r.truth != ""
    ensures RoundOf(RoundRecord(r), n) == Some(r)
  {
  }

  lemma {:induction false} RecordsLoadBack(rounds: seq<Round>, records: seq<Json>, first: nat)
    requires |records| == |rounds|
    requires forall i :: 0 <= i < |rounds| ==> records[i] == RoundRecord(rounds[i])
    requires forall i :: 0 <= i < |rounds| ==> rounds[i].title != "" && rounds[i].video != "" && rounds[i].truth != ""
    ensures LoadRounds(records, first) == rounds
    decreases |rounds|
  {
    if rounds != [] {
      RoundRecordRoundTrip(rounds[0], first);
      RecordsLoadBack(rounds[1..], records[1..], first + 1);
    }
  }

  /** What the editor saves it loads back: the records of the payload of rounds whose fields
      are all non-empty are those rounds again. */
  lemma SaveLoadRoundTrip(rounds: seq<Round>)
    requires forall i :: 0 <= i < |rounds| ==> rounds[i].title != "" && rounds[i].video != "" && rounds[i].truth != ""
    ensures LoadRounds(Payload(rounds).fields["rounds"].items, 1) == rounds
  {
    RecordsLoadBack(rounds, Payload(rounds).fields["rounds"].items, 1);
  }

  /** In particular, a document saved after a successful validation reads back as the
      validated rounds. */
  lemma SavedDocumentReloads(rounds: seq<Round>)
    requires ValidationOf(rounds).None?
    ensures var saved := FillTitles(rounds, |rounds|);
      LoadRounds(Payload(saved).fields["rounds"].items, 1) == saved
  {
    ValidatedRoundsComplete(rounds);
    var saved := FillTitles(rounds, |rounds|);
    forall i | 0 <= i < |saved|
      ensures saved[i].title != "" && saved[i].video != "" && saved[i].truth != ""
    {
      assert Complete(saved[i]);
    }
    SaveLoadRoundTrip(saved);
  }

  // ---------------------------------------------------------------------------
  // Copy titles: `_unique_copy_title`
  // ---------------------------------------------------------------------------

  /** The titles of the rounds (`{r.title for r in self.rounds}`). */
  function TitleSet(rounds: seq<Round>): set<string>
  {
    set r | r in rounds :: r.title
  }

  /** The `k`-th title the copy loop tries (from 1): "<base>", then "<base> 2", "<base> 3", … */
  function CopyCandidate(base: string, k: nat): (t: string)
    ensures base <= t
  {
    if k < 2 then base else base + " " + NatToString(k)
  }

  /** The loop never tries the same title twice. */
  lemma CopyCandidateInjective(base: string, j: nat, k: nat)
    requires 1 <= j && 1 <= k && CopyCandidate(base, j) == CopyCandidate(base, k)
    ensures j == k
  {
    if j >= 2 && k >= 2 {
      var tj := CopyCandidate(base, j);
      assert NatToString(j) == tj[|base| + 1..];
      assert NatToString(k) == tj[|base| + 1..];
      NatToStringInjective(j, k);
    }
  }

  // ---------------------------------------------------------------------------
  // The editor window's document state
  // ---------------------------------------------------------------------------

  /** The editor's document: the rounds, the selected row, the file it belongs to, and whether
      it has unsaved changes. */
  class BlindPickEditor {
    var rounds: seq<Round>
    var currentIndex: Option<nat>
    var currentPath: Option<string>
    var dirty: bool

    /** The selected row names a round. */
    predicate HasCurrent()
      reads this
    {
      currentIndex.Some? && currentIndex.value < |rounds|
    }

    /** A new editor window starts with a new document. */
    constructor ()
      ensures rounds == [DefaultRound(1)] && currentIndex == Some(0)
      ensures currentPath == None && !dirty
    {
      rounds := [DefaultRound(1)];
      currentIndex := Some(0);
      currentPath := None;
      dirty := false;
    }

    /** `_new_document`: unless unsaved changes are kept (`discard` is the answer to the
        question asked when the document is dirty), one default round and no file. */
    method NewDocument(discard: bool) returns (done: bool)
      modifies this
      ensures done <==> !old(dirty) || discard
      ensures !done ==> unchanged(this)
      ensures done ==> rounds == [DefaultRound(1)] && currentIndex == Some(0) && currentPath == None && !dirty
    {
      if dirty && !discard {
        return false;
      }
      currentPath := None;
      rounds := [DefaultRound(1)];
      dirty := false;
      currentIndex := Some(0);
      done := true;
    }

    /** `_open_document`: `path` is the chosen file ("" when the dialog was cancelled) and
        `loaded` its decoded content (`None` when reading or decoding raised). */
    method OpenDocument(path: string, loaded: Option<Json>) returns (outcome: OpenOutcome)
      modifies this
      ensures outcome == OpenCancelled <==> path == ""
      ensures outcome == Unreadable <==> path != "" && loaded.None?
      ensures outcome == NotADocument <==> path != "" && loaded.Some? && !loaded.value.JObject?
      ensures outcome == RoundsNotList <==>
        path != "" && loaded.Some? && loaded.value.JObject? &&
        !Lookup(loaded.value.fields, "rounds", JArray([])).JArray?
      ensures outcome in {OpenCancelled, Unreadable, NotADocument, RoundsNotList} ==> unchanged(this)
      ensures outcome.PartiallyLoaded? || outcome.Loaded? ==>
        && loaded.Some? && loaded.value.JObject?
        && var items := Lookup(loaded.value.fields, "rounds", JArray([])).items;
           && currentPath == Some(path)
           && rounds == LoadRounds(items, 1)
           && (outcome.PartiallyLoaded? <==> |rounds| < |items|)
           && (outcome.PartiallyLoaded? ==>
                 outcome.record == |rounds| + 1 && dirty == old(dirty) && currentIndex == old(currentIndex))
           && (outcome.Loaded? ==>
                 && outcome.wrongType == (Lookup(loaded.value.fields, "quiz_type", JNull) != JString("blindpick"))
                 && !dirty
                 && currentIndex == if rounds == [] then old(currentIndex) else Some(0))
    {
      if path == "" {
        return OpenCancelled;
      }
      if loaded.None? {
        return Unreadable;
      }
      var data := loaded.value;
      if !data.JObject? {
        return NotADocument;
      }
      var wrongType := Lookup(data.fields, "quiz_type", JNull) != JString("blindpick");
      var list := Lookup(data.fields, "rounds", JArray([]));
      if !list.JArray? {
        return RoundsNotList;
      }
      currentPath := Some(path);
      var complete := AppendRecords(list.items);
      if !complete {
        return PartiallyLoaded(|rounds| + 1);
      }
      dirty := false;
      if rounds != [] {
        currentIndex := Some(0);
      }
      outcome := Loaded(wrongType);
    }

    /** The loading loop of `_open_document`: `rounds` starts empty and receives the round of
        each record in turn; a malformed record raises and ends the loop. */
    method AppendRecords(items: seq<Json>) returns (complete: bool)
      modifies this`rounds
      ensures rounds == LoadRounds(items, 1)
      ensures complete <==> |rounds| == |items|
    {
      ghost var all := LoadRounds(items, 1);
      rounds := [];
      var i := 0;
      while i < |items|
        invariant 0 <= i <= |items| && i <= |all| && rounds == all[..i]
      {
        var r := RoundOf(items[i], i + 1);
        if r.None? {
          assert |all| == i;
          return false;
        }
        assert all[i] == r.value;
        rounds := rounds + [r.value];
        assert rounds == all[..i + 1];
        i := i + 1;
      }
      assert all[..i] == all;
      complete := true;
    }

    /** `_validate`: reports the first problem and gives every blank title it passes over,
        up to the first incomplete round, its default "Runde n". */
    method Validate() returns (err: Option<ValidationError>)
      modifies this`rounds
      ensures err == ValidationOf(old(rounds))
      ensures rounds == FillTitles(old(rounds), FirstIncomplete(old(rounds)))
    {
      if rounds == [] {
        return Some(NoRounds);
      }
      var i := 0;
      while i < |rounds|
        invariant 0 <= i <= |rounds| == |old(rounds)|
        invariant forall j :: 0 <= j < i ==> !Incomplete(old(rounds)[j])
        invariant rounds == FillTitles(old(rounds), i)
      {
        var r := rounds[i];
        if IsBlank(r.video) {
          return Some(EmptyVideo(i + 1));
        }
        if IsBlank(r.truth) {
          return Some(EmptyTruth(i + 1));
        }
        if IsBlank(r.title) {
          rounds := rounds[i := r.(title := RoundLabel(i + 1))];
        }
        i := i + 1;
      }
      return None;
    }

    /** The part of `_save_document` after a path is known: validate, then write. */
    method WriteDocument(writeOk: bool) returns (outcome: SaveOutcome)
      modifies this`rounds, this`dirty
      ensures outcome == SaveOf(old(rounds), writeOk)
      ensures rounds == FillTitles(old(rounds), FirstIncomplete(old(rounds)))
      ensures dirty == (old(dirty) && !outcome.Saved?)
    {
      var err := Validate();
      if err.Some? {
        return Invalid(err.value);
      }
      if !writeOk {
        return WriteFailed;
      }
      dirty := false;
      outcome := Saved(Payload(rounds));
    }

    /** `_save_document`: without a path it asks for one (`dialogPath`, "" when cancelled). */
    method SaveDocument(dialogPath: string, writeOk: bool) returns (outcome: SaveOutcome)
      modifies this`rounds, this`dirty, this`currentPath
      ensures old(currentPath).Some? && old(currentPath).value != "" ==>
        currentPath == old(currentPath) && outcome == SaveOf(old(rounds), writeOk)
      ensures old(currentPath).None? || old(currentPath).value == "" ==>
        if dialogPath == "" then outcome == SaveCancelled && unchanged(this)
        else currentPath == Some(dialogPath) && outcome == SaveOf(old(rounds), writeOk)
      ensures outcome != SaveCancelled ==>
        rounds == FillTitles(old(rounds), FirstIncomplete(old(rounds))) && dirty == (old(dirty) && !outcome.Saved?)
    {
      if currentPath.None? || currentPath.value == "" {
        outcome := SaveDocumentAs(dialogPath, writeOk);
      } else {
        outcome := WriteDocument(writeOk);
      }
    }

    /** `_save_document_as`: a chosen path becomes the document's path, then it is saved. */
    method SaveDocumentAs(dialogPath: string, writeOk: bool) returns (outcome: SaveOutcome)
      modifies this`rounds, this`dirty, this`currentPath
      ensures dialogPath == "" ==> outcome == SaveCancelled && unchanged(this)
      ensures dialogPath != "" ==>
        && currentPath == Some(dialogPath) && outcome == SaveOf(old(rounds), writeOk)
        && rounds == FillTitles(old(rounds), FirstIncomplete(old(rounds)))
        && dirty == (old(dirty) && !outcome.Saved?)
    {
      if dialogPath == "" {
        return SaveCancelled;
      }
      currentPath := Some(dialogPath);
      outcome := WriteDocument(writeOk);
    }

    /** `_on_select_round`: the list's current row (-1 for none) becomes the selected round. */
    method SelectRow(row: int)
      modifies this`currentIndex
      ensures currentIndex == if row < 0 then None else Some(row as nat)
    {
      currentIndex := if row < 0 then None else Some(row as nat);
    }

    /** `_on_rows_moved` with the moved range `start..end` and drop row `dest`: a single row
        is popped and re-inserted at its drop position. A `start` past the end raises before
        anything changes. */
    method OnRowsMoved(start: nat, end: nat, dest: nat) returns (moved: bool)
      modifies this`rounds, this`currentIndex, this`dirty
      ensures moved <==> start == end && start < |old(rounds)|
      ensures !moved ==> rounds == old(rounds) && currentIndex == old(currentIndex) && dirty == old(dirty)
      ensures moved ==>
        && rounds == MoveTo(old(rounds), start, dest)
        && dirty
        && var k := InsertIndex(Remove(old(rounds), start), DropIndex(start, dest));
           currentIndex == Some(k) && k < |rounds| && rounds[k] == old(rounds)[start]
    {
      if start != end || start >= |rounds| {
        return false;
      }
      var round := rounds[start];
      var rest := Remove(rounds, start);
      var destIndex := DropIndex(start, dest);
      rounds := Insert(rest, destIndex, round);
      dirty := true;
      currentIndex := Some(InsertIndex(rest, destIndex));
      moved := true;
    }

    /** `_commit_fields`: the edited texts, stripped, become the selected round's fields; a
        title left blank keeps the round's old title. */
    method CommitFields(title: string, video: string, truth: string) returns (committed: bool)
      modifies this`rounds, this`dirty
      ensures committed <==> old(HasCurrent())
      ensures !committed ==> rounds == old(rounds) && dirty == old(dirty)
      ensures committed ==>
        var idx := currentIndex.value;
        && |rounds| == |old(rounds)|
        && (forall i :: 0 <= i < |rounds| && i != idx ==> rounds[i] == old(rounds)[i])
        && rounds[idx].title == (if IsBlank(title) then old(rounds)[idx].title else Strip(title))
        && rounds[idx].video == Strip(video) && rounds[idx].truth == Strip(truth)
        && dirty
    {
      if !HasCurrent() {
        return false;
      }
      var idx := currentIndex.value;
      var r := rounds[idx];
      var newTitle := Strip(title);
      if newTitle == [] {
        newTitle := r.title;
      }
      rounds := rounds[idx := Round(newTitle, Strip(video), Strip(truth))];
      dirty := true;
      committed := true;
    }

    /** `_add_round`: a default round numbered after the last is appended and selected. */
    method AddRound()
      modifies this`rounds, this`currentIndex, this`dirty
      ensures rounds == old(rounds) + [DefaultRound(|old(rounds)| + 1)]
      ensures currentIndex == Some(|old(rounds)|) && HasCurrent()
      ensures dirty
    {
      rounds := rounds + [DefaultRound(|rounds| + 1)];
      currentIndex := Some(|rounds| - 1);
      dirty := true;
    }

    /** `_unique_copy_title`: "<title> (Kopie)", or the first of "<title> (Kopie) 2",
        "<title> (Kopie) 3", … that no round has as its title. */
    method UniqueCopyTitle(title: string) returns (copy: string)
      ensures copy !in TitleSet(rounds)
      ensures title + " (Kopie)" <= copy
      ensures exists k :: (1 <= k && copy == CopyCandidate(title + " (Kopie)", k) &&
        forall j :: 1 <= j < k ==> CopyCandidate(title + " (Kopie)", j) in TitleSet(rounds))
    {
      var base := title + " (Kopie)";
      var candidate := base;
      var i := 2;
      var existing := TitleSet(rounds);
      ghost var tried: set<string> := {};
      while candidate in existing
        invariant i >= 2 && candidate == CopyCandidate(base, i - 1)
        invariant tried <= existing
        invariant forall j :: 1 <= j < i - 1 ==> CopyCandidate(base, j) in existing
        invariant forall t :: t in tried ==> exists j :: 1 <= j < i - 1 && t == CopyCandidate(base, j)
        decreases |existing - tried|
      {
        if candidate in tried {
          var j :| 1 <= j < i - 1 && candidate == CopyCandidate(base, j);
          CopyCandidateInjective(base, j, i - 1);
          assert false;
        }
        assert existing - (tried + {candidate}) < existing - tried;
        forall j | 1 <= j < i
          ensures CopyCandidate(base, j) in existing
        {
          if j == i - 1 {
            assert CopyCandidate(base, j) == candidate;
          }
        }
        tried := tried + {candidate};
        assert CopyCandidate(base, i) == base + " " + NatToString(i);
        candidate := base + " " + NatToString(i);
        i := i + 1;
      }
      copy := candidate;
    }

    /** `_duplicate_round`: a copy of the selected round, under a fresh "(Kopie)" title, is
        inserted after it and selected. */
    method DuplicateRound() returns (done: bool)
      modifies this`rounds, this`currentIndex, this`dirty
      ensures done <==> old(HasCurrent())
      ensures !done ==> rounds == old(rounds) && currentIndex == old(currentIndex) && dirty == old(dirty)
      ensures done ==>
        var idx := old(currentIndex).value;
        var original := old(rounds)[idx];
        && |rounds| == |old(rounds)| + 1
        && rounds[..idx + 1] == old(rounds)[..idx + 1] && rounds[idx + 2..] == old(rounds)[idx + 1..]
        && rounds[idx + 1].video == original.video && rounds[idx + 1].truth == original.truth
        && original.title + " (Kopie)" <= rounds[idx + 1].title
        && rounds[idx + 1].title !in TitleSet(old(rounds))
        && currentIndex == Some(idx + 1) && dirty
    {
      if !HasCurrent() {
        return false;
      }
      var idx := currentIndex.value;
      var original := rounds[idx];
      var title := UniqueCopyTitle(original.title);
      rounds := rounds[..idx + 1] + [original.(title := title)] + rounds[idx + 1..];
      currentIndex := Some(idx + 1);
      dirty := true;
      done := true;
    }

    /** `_delete_round`: the selected round is removed unless it is the last one left; the
        selection stays on the same row, or the new last row. */
    method DeleteRound() returns (done: bool)
      modifies this`rounds, this`currentIndex, this`dirty
      ensures done <==> old(HasCurrent()) && |old(rounds)| > 1
      ensures !done ==> rounds == old(rounds) && currentIndex == old(currentIndex) && dirty == old(dirty)
      ensures done ==>
        var idx := old(currentIndex).value;
        && rounds == Remove(old(rounds), idx)
        && multiset(rounds) + multiset{old(rounds)[idx]} == multiset(old(rounds))
        && currentIndex == Some(if idx < |rounds| then idx else |rounds| - 1)
        && HasCurrent() && dirty
    {
      if !HasCurrent() || |rounds| == 1 {
        return false;
      }
      var idx := currentIndex.value;
      RemoveMultiset(rounds, idx);
      rounds := Remove(rounds, idx);
      currentIndex := Some(if idx < |rounds| - 1 then idx else |rounds| - 1);
      dirty := true;
      done := true;
    }

    /** `_move_up`: the selected round trades places with the one above it, and stays
        selected. Nothing happens on the first row, with no selection, or when the selection
        lies past the end (the swap raises). */
    method MoveUp() returns (done: bool)
      modifies this`rounds, this`currentIndex, this`dirty
      ensures done <==> old(HasCurrent()) && old(currentIndex).value > 0
      ensures !done ==> rounds == old(rounds) && currentIndex == old(currentIndex) && dirty == old(dirty)
      ensures done ==>
        var idx := old(currentIndex).value;
        && rounds == Swap(old(rounds), idx - 1, idx)
        && multiset(rounds) == multiset(old(rounds))
        && currentIndex == Some(idx - 1) && dirty
    {
      if currentIndex.None? || currentIndex.value == 0 || currentIndex.value >= |rounds| {
        return false;
      }
      var idx := currentIndex.value;
      SwapMultiset(rounds, idx - 1, idx);
      rounds := Swap(rounds, idx - 1, idx);
      currentIndex := Some(idx - 1);
      dirty := true;
      done := true;
    }

    /** `_move_down`: the selected round trades places with the one below it, and stays
        selected. Nothing happens on the last row or with no selection. */
    method MoveDown() returns (done: bool)
      modifies this`rounds, this`currentIndex, this`dirty
      ensures done <==> old(currentIndex).Some? && old(currentIndex).value + 1 < |old(rounds)|
      ensures !done ==> rounds == old(rounds) && currentIndex == old(currentIndex) && dirty == old(dirty)
      ensures done ==>
        var idx := old(currentIndex).value;
        && rounds == Swap(old(rounds), idx + 1, idx)
        && multiset(rounds) == multiset(old(rounds))
        && currentIndex == Some(idx + 1) && dirty
    {
      if currentIndex.None? || currentIndex.value >= |rounds| - 1 {
        return false;
      }
      var idx := currentIndex.value;
      SwapMultiset(rounds, idx + 1, idx);
      rounds := Swap(rounds, idx + 1, idx);
      currentIndex := Some(idx + 1);
      dirty := true;
      done := true;
    }
  }
}
