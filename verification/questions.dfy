/** The question store: parsed JSON records, the per-record validator, the
    order-preserving loader, the per-language file table and the
    count-checked multi-file sampler of `QuestionGenerator`. */
module QuestionBank {
  import opened Common
  import opened Text
  import opened QuizErrors
  import opened Randomness

  /** A parsed JSON value (numbers other than integers are not modelled). */
  datatype Json =
    | JNull
    | JBool(b: bool)
    | JInt(i: int)
    | JStr(s: string)
    | JList(items: seq<Json>)
    | JObject(fields: map<string, Json>)

  /** Python truthiness: `null`, `false`, zero and empty values are false. */
  predicate Truthy(j: Json)
  {
    match j
    case JNull => false
    case JBool(b) => b
    case JInt(i) => i != 0
    case JStr(s) => s != []
    case JList(items) => items != []
    case JObject(fields) => fields != map[]
  }

  /** What reading a question file yields: text that is not JSON, or a value. */
  datatype FileContent = Unparsable | Parsed(json: Json)

  /** The files the generator can see, by path. */
  type Store = map<string, FileContent>

  /** A record that passed validation: its prompt, its answers and its correct answer. */
  datatype Question = Question(text: Json, answers: seq<Json>, correct: Json)

  predicate WellFormed(q: Question)
  {
    |q.answers| == 4 && q.correct in q.answers
  }

  datatype Rejection = MissingField(field: string) | NotFourAnswers | CorrectNotInAnswers

  datatype Check = Accepted(question: Question) | Rejected(reason: Rejection)

  const RequiredFields: seq<string> := ["question", "answers", "correct"]

  /** Python's `field in record`, whose meaning depends on the record's type. */
  function HasField(x: Json, field: string): Result<bool, Error>
  {
    match x
    case JObject(m) => Success(field in m)
    case JStr(s) => Success(Contains(s, field))
    case JList(items) => Success(JStr(field) in items)
    case _ => Failure(RecordNotADict)
  }

  /** The required fields are checked in order; the first one missing rejects. */
  function FirstMissing(x: Json, fields: seq<string>): (r: Result<Option<string>, Error>)
    ensures x.JObject? ==> r.Success?
    ensures x.JObject? ==> (r.value.None? <==> forall f :: f in fields ==> f in x.fields)
    ensures x.JObject? && |fields| > 0 && fields[0] !in x.fields ==> r.value == Some(fields[0])
    ensures x.JObject? && |fields| > 1 && fields[0] in x.fields && fields[1] !in x.fields ==> r.value == Some(fields[1])
    ensures r.Failure? ==> r.error == RecordNotADict
  {
    if fields == [] then Success(None)
    else match HasField(x, fields[0])
      case Failure(e) => Failure(e)
      case Success(present) => if present then FirstMissing(x, fields[1..]) else Success(Some(fields[0]))
  }

  /** `_validate_question`: a record is accepted iff it has all three fields,
      its answers are a list of exactly four, and the correct answer is one of them. */
  function ValidateQuestion(x: Json): (r: Result<Check, Error>)
    ensures r.Success? && r.value.Accepted? ==> WellFormed(r.value.question)
    ensures (r.Success? && r.value.Accepted?) <==>
      && x.JObject?
      && (forall f :: f in RequiredFields ==> f in x.fields)
      && x.fields["answers"].JList?
      && |x.fields["answers"].items| == 4
      && x.fields["correct"] in x.fields["answers"].items
    ensures r.Success? && r.value.Accepted? ==>
      r.value.question == Question(x.fields["question"], x.fields["answers"].items, x.fields["correct"])
    ensures x.JObject? && "question" !in x.fields ==> r == Success(Rejected(MissingField("question")))
    ensures x.JObject? && "question" in x.fields && "answers" !in x.fields ==> r == Success(Rejected(MissingField("answers")))
    ensures x.JObject? ==> r.Success?
  {
    match FirstMissing(x, RequiredFields)
    case Failure(e) => Failure(e)
    case Success(Some(f)) => Success(Rejected(MissingField(f)))
    case Success(None) =>
      if !x.JObject? then Failure(RecordNotADict)
      else
        var answers := x.fields["answers"];
        if !answers.JList? || |answers.items| != 4 then Success(Rejected(NotFourAnswers))
        else if x.fields["correct"] !in answers.items then Success(Rejected(CorrectNotInAnswers))
        else Success(Accepted(Question(x.fields["question"], answers.items, x.fields["correct"])))
  }

  /** The validation loop of `load_questions`: invalid records are skipped, a
      record that makes validation raise aborts the load. */
  function ScanRecords(items: seq<Json>): (r: Result<seq<Question>, Error>)
    ensures r.Failure? ==> r.error == RecordNotADict
    ensures r.Success? ==> |r.value| <= |items|
    ensures r.Success? ==> forall q :: q in r.value ==> WellFormed(q)
  {
    if items == [] then Success([])
    else
      var check := ValidateQuestion(items[0]);
      if check.Failure? then Failure(check.error)
      else
        var rest := ScanRecords(items[1..]);
        if rest.Failure? then rest else Success(Keep(check.value, rest.value))
  }

  function Keep(check: Check, rest: seq<Question>): seq<Question>
  {
    if check.Accepted? then [check.question] + rest else rest
  }

  /** A one-record scan keeps the record exactly when validation accepts it. */
  lemma ScanSingleton(x: Json)
    ensures ValidateQuestion(x).Failure? ==> ScanRecords([x]) == Failure(ValidateQuestion(x).error)
    ensures ValidateQuestion(x).Success? && ValidateQuestion(x).value.Accepted? ==>
      ScanRecords([x]) == Success([ValidateQuestion(x).value.question])
    ensures ValidateQuestion(x).Success? && ValidateQuestion(x).value.Rejected? ==> ScanRecords([x]) == Success([])
  {
    assert [x][0] == x;
    assert [x][1..] == [];
    var v := ValidateQuestion(x);
    if v.Success? && v.value.Accepted? {
      assert [v.value.question] + [] == [v.value.question];
    }
  }

  /** Scanning is order-preserving: the scan of a concatenation is the
      concatenation of the scans, and the first raising record wins. */
  lemma {:induction false} ScanConcat(a: seq<Json>, b: seq<Json>)
    ensures ScanRecords(a + b) ==
      if ScanRecords(a).Failure? then ScanRecords(a)
      else if ScanRecords(b).Failure? then ScanRecords(b)
      else Success(ScanRecords(a).value + ScanRecords(b).value)
  {
    if a == [] {
      assert a + b == b;
      if ScanRecords(b).Success? {
        assert [] + ScanRecords(b).value == ScanRecords(b).value;
      }
    } else {
      assert a + b != [];
      assert (a + b)[0] == a[0];
      assert (a + b)[1..] == a[1..] + b;
      ScanConcat(a[1..], b);
      var v := ValidateQuestion(a[0]);
      if v.Success? && ScanRecords(a[1..]).Success? {
        if ScanRecords(b).Success? {
          var x, y := ScanRecords(a[1..]).value, ScanRecords(b).value;
          assert ScanRecords(a + b) == Success(Keep(v.value, x + y));
          assert Keep(v.value, x + y) == Keep(v.value, x) + y;
        }
      }
    }
  }

  /** Loading fails only because some record makes validation raise. */
  lemma {:induction false} ScanSucceeds(items: seq<Json>)
    ensures ScanRecords(items).Success? <==> forall i :: 0 <= i < |items| ==> ValidateQuestion(items[i]).Success?
  {
    if items != [] {
      ScanSucceeds(items[1..]);
      assert forall i :: 1 <= i < |items| ==> items[i] == items[1..][i - 1];
    }
  }

  /** Every accepted record appears in the loaded list. */
  lemma {:induction false} ScanKeepsAccepted(items: seq<Json>, i: nat)
    requires i < |items| && ScanRecords(items).Success?
    requires ValidateQuestion(items[i]).Success? && ValidateQuestion(items[i]).value.Accepted?
    ensures ValidateQuestion(items[i]).value.question in ScanRecords(items).value
    decreases i
  {
    if i > 0 {
      assert items[1..][i - 1] == items[i];
      ScanKeepsAccepted(items[1..], i - 1);
    }
  }

  /** `load_questions(path)`. */
  function LoadQuestions(store: Store, path: string): (r: Result<seq<Question>, Error>)
    ensures path !in store ==> r == Failure(QuestionFileMissing(path))
    ensures path in store && store[path].Unparsable? ==> r == Failure(InvalidJson(path))
    ensures path in store && store[path].Parsed? && !store[path].json.JList? ==> r == Failure(NotAQuestionList(path))
    ensures path in store && store[path].Parsed? && store[path].json.JList? ==> r == ScanRecords(store[path].json.items)
  {
    if path !in store then Failure(QuestionFileMissing(path))
    else match store[path]
      case Unparsable => Failure(InvalidJson(path))
      case Parsed(json) =>
        if !json.JList? then Failure(NotAQuestionList(path)) else ScanRecords(json.items)
  }

  // ---------------------------------------------------------------------
  // Per-language file table

  /** One `{'path': …, 'count': …}` entry. */
  datatype FileSpec = FileSpec(path: string, count: int)

  function ModulePath(base: string, k: nat): string
    requires 1 <= k <= 3
  {
    base + "/M" + NatToString(k) + "/m" + NatToString(k) + ".json"
  }

  /** The three module files under `base`, with counts 3, 4 and 3. */
  function ModuleSpecs(base: string): (r: seq<FileSpec>)
    ensures |r| == 3
    ensures forall k :: 0 <= k < 3 ==> r[k].path == ModulePath(base, k + 1)
  {
    [FileSpec(ModulePath(base, 1), 3), FileSpec(ModulePath(base, 2), 4), FileSpec(ModulePath(base, 3), 3)]
  }

  /** `get_file_configs_for_language`: the language is upper-cased; ENG and SRB
      map to their three module files with counts 3, 4 and 3, anything else raises. */
  function FileConfigsForLanguage(language: string): (r: Result<seq<FileSpec>, Error>)
    ensures r.Success? <==> Upper(language) == "ENG" || Upper(language) == "SRB"
    ensures r.Failure? ==> r.error == UnsupportedLanguage(Upper(language))
    ensures r.Success? ==>
      && |r.value| == 3
      && r.value[0].count == 3 && r.value[1].count == 4 && r.value[2].count == 3
      && forall k :: 0 <= k < 3 ==> r.value[k].path == ModulePath("QAPool/" + Lower(Upper(language)) + "/L0", k + 1)
  {
    var lang := Upper(language);
    if lang == "ENG" then
      assert Lower(lang) == "eng";
      assert "QAPool/" + Lower(lang) + "/L0" == "QAPool/eng/L0";
      Success(ModuleSpecs("QAPool/eng/L0"))
    else if lang == "SRB" then
      assert Lower(lang) == "srb";
      assert "QAPool/" + Lower(lang) + "/L0" == "QAPool/srb/L0";
      Success(ModuleSpecs("QAPool/srb/L0"))
    else
      Failure(UnsupportedLanguage(lang))
  }

  // ---------------------------------------------------------------------
  // Multi-file sampling

  function Counts(specs: seq<FileSpec>): (r: seq<int>)
    ensures |r| == |specs|
    ensures forall i :: 0 <= i < |specs| ==> r[i] == specs[i].count
  {
    seq(|specs|, i requires 0 <= i < |specs| => specs[i].count)
  }

  /** A file can supply its share: it loads and holds at least `count` valid records. */
  predicate CanSupply(store: Store, spec: FileSpec)
  {
    && LoadQuestions(store, spec.path).Success?
    && 0 <= spec.count <= |LoadQuestions(store, spec.path).value|
  }

  /** `load_questions_from_multiple_files`: per file in order, load it, check the
      count, and draw `count` records without replacement; the draws are
      concatenated in file order. Returns the result and the new draw position. */
  function LoadFromMultipleFiles(store: Store, specs: seq<FileSpec>, rs: Stream, pos: nat): (r: (Result<seq<Question>, Error>, nat))
    ensures r.0.Success? <==> forall i :: 0 <= i < |specs| ==> CanSupply(store, specs[i])
    ensures r.0.Success? ==> |r.0.value| == Sum(Counts(specs))
    ensures r.0.Success? ==> forall q :: q in r.0.value ==> WellFormed(q)
    ensures r.0.Failure? && r.0.error.InsufficientQuestions? ==>
      exists i :: 0 <= i < |specs| && specs[i].path == r.0.error.path && specs[i].count == r.0.error.required
        && LoadQuestions(store, specs[i].path) .Success?
        && |LoadQuestions(store, specs[i].path).value| == r.0.error.available < r.0.error.required
  {
    if specs == [] then (Success([]), pos)
    else
      var spec := specs[0];
      assert Counts(specs) == [spec.count] + Counts(specs[1..]);
      assert forall i :: 1 <= i < |specs| ==> specs[i] == specs[1..][i - 1];
      match LoadQuestions(store, spec.path)
      case Failure(e) => (Failure(e), pos)
      case Success(qs) =>
        if |qs| < spec.count then (Failure(InsufficientQuestions(spec.path, |qs|, spec.count)), pos)
        else if spec.count < 0 then (Failure(SampleSizeNegative(spec.count)), pos)
        else
          var (picked, pos1) := Sample(qs, spec.count, rs, pos);
          assert forall q :: q in picked ==> q in multiset(qs);
          var (rest, pos2) := LoadFromMultipleFiles(store, specs[1..], rs, pos1);
          match rest
          case Failure(e) => (Failure(e), pos2)
          case Success(more) => (Success(picked + more), pos2)
  }

  /** The per-file draws of the multi-file loop, in file order, when every
      file can supply its share. */
  function Draws(store: Store, specs: seq<FileSpec>, rs: Stream, pos: nat): (d: seq<seq<Question>>)
    requires forall k :: 0 <= k < |specs| ==> CanSupply(store, specs[k])
    ensures |d| == |specs|
    ensures forall k :: 0 <= k < |specs| ==>
      CanSupply(store, specs[k]) && |d[k]| == specs[k].count && multiset(d[k]) <= multiset(LoadQuestions(store, specs[k].path).value)
  {
    if specs == [] then []
    else
      assert forall k :: 1 <= k < |specs| ==> specs[k] == specs[1..][k - 1];
      assert CanSupply(store, specs[0]);
      var draw := Sample(LoadQuestions(store, specs[0].path).value, specs[0].count, rs, pos);
      [draw.0] + Draws(store, specs[1..], rs, draw.1)
  }

  /** A successful multi-file load is exactly the concatenation of the per-file draws. */
  lemma {:induction false} MultiFileIsDraws(store: Store, specs: seq<FileSpec>, rs: Stream, pos: nat)
    requires LoadFromMultipleFiles(store, specs, rs, pos).0.Success?
    ensures forall k :: 0 <= k < |specs| ==> CanSupply(store, specs[k])
    ensures LoadFromMultipleFiles(store, specs, rs, pos).0.value == Flatten(Draws(store, specs, rs, pos))
  {
    if specs != [] {
      var draw := Sample(LoadQuestions(store, specs[0].path).value, specs[0].count, rs, pos);
      MultiFileIsDraws(store, specs[1..], rs, draw.1);
      assert Draws(store, specs, rs, pos)[1..] == Draws(store, specs[1..], rs, draw.1);
    }
  }

  /** The draws from file `i` sit, in file order, at offset `Sum(counts[..i])`
      of the result: exactly `count` records, a sub-multiset of that file's valid records. */
  lemma MultiFileBlocks(store: Store, specs: seq<FileSpec>, rs: Stream, pos: nat, i: nat)
    requires forall j :: 0 <= j < |specs| ==> CanSupply(store, specs[j])
    requires i < |specs|
    ensures LoadFromMultipleFiles(store, specs, rs, pos).0.Success?
    ensures BlockWithin(LoadFromMultipleFiles(store, specs, rs, pos).0.value, Sum(Counts(specs)[..i]),
                        specs[i].count, multiset(LoadQuestions(store, specs[i].path).value))
  {
    MultiFileIsDraws(store, specs, rs, pos);
    var d := Draws(store, specs, rs, pos);
    var pool := multiset(LoadQuestions(store, specs[i].path).value);
    assert multiset(d[i]) <= pool;
    FlattenBlockWithin(LoadFromMultipleFiles(store, specs, rs, pos).0.value, d, Counts(specs), i, specs[i].count, pool);
  }

  /** `select_random_questions(questions, count)`: `count` defaults to the
      configured question count; asking for more than there are raises. */
  function SelectRandomQuestions<T>(questions: seq<T>, count: Option<int>, configured: int, rs: Stream, pos: nat): (r: (Result<seq<T>, Error>, nat))
    ensures var c := if count.Some? then count.value else configured;
      && (r.0.Success? <==> 0 <= c <= |questions|)
      && (c > |questions| ==> r.0 == Failure(TooManyRequested(c, |questions|)))
      && (r.0.Success? ==> |r.0.value| == c && multiset(r.0.value) <= multiset(questions))
  {
    var c := if count.Some? then count.value else configured;
    if c > |questions| then (Failure(TooManyRequested(c, |questions|)), pos)
    else if c < 0 then (Failure(SampleSizeNegative(c)), pos)
    else
      var (picked, pos') := Sample(questions, c, rs, pos);
      (Success(picked), pos')
  }
}
