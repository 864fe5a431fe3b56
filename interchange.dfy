/** The template document the editor writes is the one the quiz's setup dialog reads: both
    read a record's title and video alike, and the quiz's extra answer key is one the editor
    never writes. */
module Interchange {
  import opened Common
  import opened Json
  import Text
  import BlindPick
  import Editor

  /** The quiz's view of an editor round. */
  function AsTemplate(r: Editor.Round): BlindPick.RoundTemplate
  {
    BlindPick.RoundTemplate(r.title, r.video, r.truth)
  }

  function LiftRound(r: Option<Editor.Round>): Option<BlindPick.RoundTemplate>
  {
    match r
    case None => None
    case Some(round) => Some(AsTemplate(round))
  }

  /** On a record without the "Richtige Antwort" key the quiz and the editor read the same
      round, and refuse the same records. */
  lemma ReadersAgree(record: Json, n: nat)
    requires record.JObject? ==> BlindPick.TruthLabel !in record.fields
    ensures BlindPick.TemplateOf(record, n) == LiftRound(Editor.RoundOf(record, n))
  {
  }

  /** The rounds of a template document, as the editor writes them, seen by the quiz. */
  function Templates(rounds: seq<Editor.Round>): (ts: seq<BlindPick.RoundTemplate>)
    ensures |ts| == |rounds|
    ensures forall i :: 0 <= i < |rounds| ==> ts[i] == AsTemplate(rounds[i])
  {
    seq(|rounds|, i requires 0 <= i < |rounds| => AsTemplate(rounds[i]))
  }

  /** Every record the editor writes is one the quiz reads back field for field, whatever
      its title, video or answer. */
  lemma QuizReadsRoundRecord(r: Editor.Round, n: nat)
    ensures BlindPick.TemplateOf(Editor.RoundRecord(r), n) ==
      Some(BlindPick.RoundTemplate(if r.title == "" then Text.RoundLabel(n) else r.title, r.video, r.truth))
  {
    ReadersAgree(Editor.RoundRecord(r), n);
  }

  /** A document the editor saves after a successful validation is accepted by the quiz's
      setup dialog, with one template per round, in order. */
  lemma {:induction false} QuizAcceptsSavedDocument(rounds: seq<Editor.Round>)
    requires Editor.ValidationOf(rounds).None?
    ensures var saved := Editor.FillTitles(rounds, |rounds|);
      BlindPick.ParseTemplates(Editor.Payload(saved)) == Ok(Templates(saved))
  {
    Editor.ValidatedRoundsComplete(rounds);
    var saved := Editor.FillTitles(rounds, |rounds|);
    var items := Editor.Payload(saved).fields["rounds"].items;
    forall i | 0 <= i < |items|
      ensures BlindPick.TemplateOf(items[i], 1 + i) == Some(AsTemplate(saved[i]))
    {
      assert Editor.Complete(saved[i]);
      QuizReadsRoundRecord(saved[i], 1 + i);
    }
    var parsed := BlindPick.TemplatesFrom(items, 0);
    assert parsed.Some?;
    assert parsed.value == Templates(saved);
  }
}
