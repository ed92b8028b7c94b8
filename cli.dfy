/**
 * The parts of the command line front end that decide something: the
 * truth-value parser, the confirmation prompt loop the engine is given as
 * its `ask_confirmation` callback, and the `--tags` argument splitter.
 */
module Cli {
  import opened Common
  import opened Text

  /** The spellings `strtobool` reads as yes. */
  const TrueWords: set<string> := {"y", "yes", "t", "true", "on", "1"}

  /** The spellings `strtobool` reads as no. */
  const FalseWords: set<string> := {"n", "no", "f", "false", "off", "0"}

  /** No spelling means both yes and no. */
  lemma TruthWordsDisjoint()
    ensures TrueWords * FalseWords == {}
  {
  }

  /** `strtobool`: lower-case the answer, then look it up; `None` is the `ValueError`. */
  function StrToBool(val: string): (r: Option<bool>)
    ensures r == Some(true) <==> Lower(val) in TrueWords
    ensures r == Some(false) <==> Lower(val) in FalseWords
    ensures r.None? <==> Lower(val) !in TrueWords && Lower(val) !in FalseWords
  {
    var v := Lower(val);
    if v in TrueWords then Some(true)
    else if v in FalseWords then Some(false)
    else None
  }

  /** `strtobool` ignores the case of ASCII letters. */
  lemma StrToBoolCaseInsensitive(val: string)
    ensures StrToBool(Lower(val)) == StrToBool(val)
  {
    LowerIdempotent(val);
  }

  /** One reply to a prompt: a line of input, or the end of the input stream. */
  datatype Answer = Line(text: string) | Eof

  /** A reply that makes `ask_confirmation` ask again: not empty and not a truth value. */
  predicate Invalid(a: Answer) {
    a.Line? && a.text != "" && StrToBool(Lower(a.text)).None?
  }

  /**
   * `ask_confirmation` with its default of no, reading the replies in
   * `answers` (running out of them is the end of the input). Returns the
   * decision and the number of prompts shown: every reply before the last
   * prompt was invalid; end of input or an empty reply at the last prompt
   * answers no; otherwise the last reply's truth value is the decision.
   */
  method AskConfirmation(answers: seq<Answer>) returns (r: bool, asked: nat)
    ensures 1 <= asked <= |answers| + 1
    ensures forall j :: 0 <= j < asked - 1 ==> Invalid(answers[j])
    ensures asked - 1 == |answers| ==> !r
    ensures asked - 1 < |answers| ==> !Invalid(answers[asked - 1])
    ensures asked - 1 < |answers| && (answers[asked - 1].Eof? || answers[asked - 1].text == "") ==> !r
    ensures asked - 1 < |answers| && answers[asked - 1].Line? && answers[asked - 1].text != "" ==>
      StrToBool(Lower(answers[asked - 1].text)) == Some(r)
  {
    var default := false;
    var i := 0;
    while true
      invariant 0 <= i <= |answers|
      invariant forall j :: 0 <= j < i ==> Invalid(answers[j])
      decreases |answers| - i
    {
      if i == |answers| || answers[i].Eof? || answers[i].text == "" {
        r := default;
        break;
      }
      var b := StrToBool(Lower(answers[i].text));
      if b.Some? {
        r := b.value;
        break;
      }
      i := i + 1;
    }
    asked := i + 1;
  }

  /** The `--tags` argument: split on commas, strip each field. */
  function SplitTags(t: string): (r: seq<string>)
    ensures |r| == Count(t, ',') + 1
    ensures forall i :: 0 <= i < |r| ==> Stripped(r[i]) && ',' !in r[i]
    ensures |r| == |Split(t, ',')| && forall i :: 0 <= i < |r| ==> r[i] == Strip(Split(t, ',')[i])
  {
    var fields := Split(t, ',');
    SplitPieces(t, ',');
    seq(|fields|, i requires 0 <= i < |fields| => StripField(fields[i], ','))
  }

  /** A field stripped of surrounding whitespace keeps none of the separators it did not have. */
  function StripField(field: string, c: char): (r: string)
    ensures Stripped(r) && (c !in field ==> c !in r)
    ensures r == Strip(field)
  {
    var r := Strip(field);
    assert forall k :: 0 <= k < |r| ==> r[k] in field;
    r
  }

  /** Tags already written without commas or surrounding whitespace come back from their joined form. */
  lemma SplitTagsJoin(tags: seq<string>)
    requires |tags| >= 1
    requires forall p :: p in tags ==> Stripped(p) && ',' !in p
    ensures SplitTags(Join(tags, ',')) == tags
  {
    SplitJoin(tags, ',');
  }
}
