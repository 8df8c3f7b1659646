/** `convert_format`: each validated record becomes the front-end shape
    `{question, choices, correct}`, where `choices` is a (possibly shuffled)
    copy of the answers and `correct` is re-computed as an index into it. */
module AnswerShuffle {
  import opened Common
  import opened QuizErrors
  import opened Randomness
  import opened QuestionBank

  /** A question in the shape the generated script embeds. */
  datatype JsQuestion = JsQuestion(question: Json, choices: seq<Json>, correct: nat)

  /** `xs.index(x)`: the first position holding `x`, if any. */
  function IndexOf<T(==)>(xs: seq<T>, x: T): (r: Option<nat>)
    ensures r.None? <==> x !in xs
    ensures r.Some? ==> r.value < |xs| && xs[r.value] == x
    ensures r.Some? ==> forall j :: 0 <= j < r.value ==> xs[j] != x
  {
    if xs == [] then None
    else if xs[0] == x then Some(0)
    else match IndexOf(xs[1..], x)
      case None => None
      case Some(k) => Some(k + 1)
  }

  /** The first index of `x` in `xs` is the only position that holds `x`
      with no earlier copy of it. */
  lemma IndexOfUnique<T>(xs: seq<T>, x: T, k: nat)
    requires k < |xs| && xs[k] == x
    requires forall j :: 0 <= j < k ==> xs[j] != x
    ensures IndexOf(xs, x) == Some(k)
  {
  }

  /** What `convert_format` promises the script builder, record by record:
      the prompt is copied, the choices are a rearrangement of the answers
      (the same order when not shuffling), and `choices[correct]` is the
      original correct answer at its first occurrence. */
  predicate Converted(q: Question, js: JsQuestion, shuffleChoices: bool)
  {
    && js.question == q.text
    && multiset(js.choices) == multiset(q.answers)
    && (!shuffleChoices ==> js.choices == q.answers)
    && js.correct < |js.choices|
    && js.choices[js.correct] == q.correct
    && (forall j :: 0 <= j < js.correct ==> js.choices[j] != q.correct)
  }

  /** One record: copy the answers, shuffle the copy when asked, and look the
      correct answer up in it (`list.index` raises when it is absent). */
  function ConvertOne(q: Question, shuffleChoices: bool, rs: Stream, pos: nat): (r: (Result<JsQuestion, Error>, nat))
    ensures r.0.Success? <==> q.correct in q.answers
    ensures r.0.Failure? ==> r.0.error == CorrectAnswerMissing
    ensures r.0.Success? ==> Converted(q, r.0.value, shuffleChoices)
    ensures r.1 == if shuffleChoices then Shuffle(q.answers, rs, pos).1 else pos
  {
    var (choices, pos') := if shuffleChoices then Shuffle(q.answers, rs, pos) else (q.answers, pos);
    assert q.correct in q.answers <==> q.correct in multiset(choices);
    match IndexOf(choices, q.correct)
    case None => (Failure(CorrectAnswerMissing), pos')
    case Some(k) => (Success(JsQuestion(q.text, choices, k)), pos')
  }

  /** `convert_format(questions, shuffle_choices)`: records converted one by
      one, in order, each drawing from the generator after the previous one. */
  function ConvertFormat(qs: seq<Question>, shuffleChoices: bool, rs: Stream, pos: nat): (r: (Result<seq<JsQuestion>, Error>, nat))
    ensures r.0.Failure? ==> r.0.error == CorrectAnswerMissing
    ensures r.0.Success? ==> |r.0.value| == |qs|
    decreases |qs|
  {
    if qs == [] then (Success([]), pos)
    else
      var (first, pos1) := ConvertOne(qs[0], shuffleChoices, rs, pos);
      if first.Failure? then (Failure(first.error), pos1)
      else
        var (rest, pos2) := ConvertFormat(qs[1..], shuffleChoices, rs, pos1);
        if rest.Failure? then (rest, pos2) else (Success([first.value] + rest.value), pos2)
  }


  /** Conversion succeeds exactly when every record's correct answer is among
      its answers. */
  lemma {:induction false} ConvertFormatSucceeds(qs: seq<Question>, shuffleChoices: bool, rs: Stream, pos: nat)
    ensures ConvertFormat(qs, shuffleChoices, rs, pos).0.Success?
        <==> forall i :: 0 <= i < |qs| ==> qs[i].correct in qs[i].answers
    decreases |qs|
  {
    if qs != [] {
      var (first, pos1) := ConvertOne(qs[0], shuffleChoices, rs, pos);
      ConvertFormatSucceeds(qs[1..], shuffleChoices, rs, pos1);
      assert forall i :: 1 <= i < |qs| ==> qs[i] == qs[1..][i - 1];
    }
  }

  /** After a successful conversion every output record is the converted
      input record at the same position. */
  lemma {:induction false} ConvertFormatCorrect(qs: seq<Question>, shuffleChoices: bool, rs: Stream, pos: nat)
    ensures var r := ConvertFormat(qs, shuffleChoices, rs, pos).0;
      r.Success? ==> forall i :: 0 <= i < |qs| ==> Converted(qs[i], r.value[i], shuffleChoices)
    decreases |qs|
  {
    var r := ConvertFormat(qs, shuffleChoices, rs, pos).0;
    if qs != [] && r.Success? {
      var (first, pos1) := ConvertOne(qs[0], shuffleChoices, rs, pos);
      var rest := ConvertFormat(qs[1..], shuffleChoices, rs, pos1).0;
      ConvertFormatCorrect(qs[1..], shuffleChoices, rs, pos1);
      assert r.value == [first.value] + rest.value;
      forall i | 0 <= i < |qs|
        ensures Converted(qs[i], r.value[i], shuffleChoices)
      {
        if i > 0 {
          assert qs[i] == qs[1..][i - 1] && r.value[i] == rest.value[i - 1];
        }
      }
    }
  }

  /** Every validated record converts: the loader's output never makes
      `convert_format` raise. */
  lemma ConvertWellFormed(qs: seq<Question>, shuffleChoices: bool, rs: Stream, pos: nat)
    requires forall q :: q in qs ==> WellFormed(q)
    ensures ConvertFormat(qs, shuffleChoices, rs, pos).0.Success?
  {
    assert forall i :: 0 <= i < |qs| ==> qs[i] in qs;
    ConvertFormatSucceeds(qs, shuffleChoices, rs, pos);
  }

  /** Without shuffling, conversion draws nothing and each `correct` is the
      original answer's own position. */
  lemma ConvertWithoutShuffle(qs: seq<Question>, rs: Stream, pos: nat, i: nat)
    requires i < |qs| && forall q :: q in qs ==> WellFormed(q)
    ensures var r := ConvertFormat(qs, false, rs, pos);
      && r.1 == pos
      && r.0.Success?
      && r.0.value[i].choices == qs[i].answers
      && Some(r.0.value[i].correct) == IndexOf(qs[i].answers, qs[i].correct)
  {
    ConvertWellFormed(qs, false, rs, pos);
    ConvertFormatCorrect(qs, false, rs, pos);
    var r := ConvertFormat(qs, false, rs, pos).0;
    assert Converted(qs[i], r.value[i], false);
    IndexOfUnique(qs[i].answers, qs[i].correct, r.value[i].correct);
    ConvertDrawsNothing(qs, rs, pos);
  }

  lemma {:induction false} ConvertDrawsNothing(qs: seq<Question>, rs: Stream, pos: nat)
    ensures ConvertFormat(qs, false, rs, pos).1 == pos
    decreases |qs|
  {
    if qs != [] {
      ConvertDrawsNothing(qs[1..], rs, pos);
    }
  }
}
