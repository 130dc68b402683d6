/** An answer option as the question editors hold it while a question is
    being written: its text and whether it is marked correct. */
module Choices {
  import Seqs

  datatype Choice = Choice(text: string, isCorrect: bool)

  /** The row the editors add: no text, not correct. */
  const BlankChoice := Choice("", false)

  /** The form's starting option list: two blank rows. */
  const TwoBlank: seq<Choice> := [BlankChoice, BlankChoice]

  predicate IsCorrect(c: Choice) {
    c.isCorrect
  }

  /** `options.filter((opt) => opt.isCorrect).length`. */
  function CorrectCount(opts: seq<Choice>): nat {
    |Seqs.Filter(IsCorrect, opts)|
  }

  /** Exactly one option, the one at `index`, is marked correct. */
  predicate OnlyCorrectAt(opts: seq<Choice>, index: int) {
    0 <= index < |opts| && forall k :: 0 <= k < |opts| ==> (opts[k].isCorrect <==> k == index)
  }

  /** `r` is `opts` with every mark cleared except the one at `index`, and
      every text kept. */
  predicate MarkedOnly(r: seq<Choice>, opts: seq<Choice>, index: int) {
    |r| == |opts| &&
    forall k :: 0 <= k < |opts| ==> r[k] == opts[k].(isCorrect := k == index)
  }

  /** Exactly one option is correct when the correct count is 1. */
  lemma {:induction false} CountOneIff(opts: seq<Choice>)
    ensures CorrectCount(opts) == 1 <==> exists index :: OnlyCorrectAt(opts, index)
  {
    if opts == [] {
    } else {
      var tail := opts[1..];
      CountOneIff(tail);
      CountZeroIff(tail);
      assert forall k :: 1 <= k < |opts| ==> opts[k] == tail[k - 1];
      if CorrectCount(opts) == 1 {
        if opts[0].isCorrect {
          assert CorrectCount(tail) == 0;
          assert OnlyCorrectAt(opts, 0);
        } else {
          var j :| OnlyCorrectAt(tail, j);
          assert OnlyCorrectAt(opts, j + 1);
        }
      }
      if exists index :: OnlyCorrectAt(opts, index) {
        var index :| OnlyCorrectAt(opts, index);
        if index == 0 {
          assert forall k :: 0 <= k < |tail| ==> !tail[k].isCorrect;
        } else {
          assert OnlyCorrectAt(tail, index - 1);
        }
      }
    }
  }

  /** No option is correct when the correct count is 0. */
  lemma {:induction false} CountZeroIff(opts: seq<Choice>)
    ensures CorrectCount(opts) == 0 <==> forall k :: 0 <= k < |opts| ==> !opts[k].isCorrect
  {
    if opts != [] {
      CountZeroIff(opts[1..]);
      assert forall k :: 1 <= k < |opts| ==> opts[k] == opts[1..][k - 1];
    }
  }

  /** Marking one option in range leaves exactly that option correct. */
  lemma MarkedOnlyIsOnlyCorrect(r: seq<Choice>, opts: seq<Choice>, index: int)
    requires MarkedOnly(r, opts, index)
    requires 0 <= index < |opts|
    ensures OnlyCorrectAt(r, index)
    ensures CorrectCount(r) == 1
  {
    CountOneIff(r);
  }
}
