/** The code generator: `_escape_js_string`, `_format_questions_for_js` and
    the variable slots of the script `generate_script` fills in. */
module ScriptBuilder {
  import opened Common
  import opened Text
  import opened QuizErrors
  import opened QuestionBank
  import opened AnswerShuffle
  import opened QuizSettings

  // ---------------------------------------------------------------------
  // JavaScript string escaping

  /** The five characters the escaper rewrites. */
  predicate Special(c: char)
  {
    c == '\\' || c == '\'' || c == '"' || c == '\n' || c == '\r'
  }

  /** `_escape_js_string`: five chained `replace` calls, backslash first. */
  function EscapeJs(text: string): (r: string)
    ensures '\n' !in r && '\r' !in r
  {
    var s1 := ReplaceChar(text, '\\', "\\\\");
    var s2 := ReplaceChar(s1, '\'', "\\'");
    var s3 := ReplaceChar(s2, '"', "\\\"");
    var s4 := ReplaceChar(s3, '\n', "\\n");
    ReplaceCharRemoves(s3, '\n', "\\n");
    ReplaceCharKeepsAbsent(s4, '\r', "\\r", '\n');
    ReplaceCharRemoves(s4, '\r', "\\r");
    ReplaceChar(s4, '\r', "\\r")
  }

  /** The escape of one character. */
  function EscapeChar(c: char): (r: string)
    ensures 1 <= |r| <= 2
    ensures Special(c) <==> |r| == 2
    ensures |r| == 2 ==> r[0] == '\\'
    ensures '\n' !in r && '\r' !in r
  {
    if c == '\\' then "\\\\"
    else if c == '\'' then "\\'"
    else if c == '"' then "\\\""
    else if c == '\n' then "\\n"
    else if c == '\r' then "\\r"
    else [c]
  }

  /** The per-character escape map applied to a whole string. */
  function EscapeMap(s: string): string
  {
    if s == [] then [] else EscapeChar(s[0]) + EscapeMap(s[1..])
  }

  lemma EscapeSingle(c: char)
    ensures EscapeJs([c]) == EscapeChar(c)
  {
    var s1 := ReplaceChar([c], '\\', "\\\\");
    var s2 := ReplaceChar(s1, '\'', "\\'");
    var s3 := ReplaceChar(s2, '"', "\\\"");
    var s4 := ReplaceChar(s3, '\n', "\\n");
    ReplaceCharSingle(c, '\\', "\\\\");
    if c == '\\' {
      assert s1 == "\\\\" && s4 == s1;
    } else {
      assert s1 == [c];
      ReplaceCharSingle(c, '\'', "\\'");
      if c == '\'' {
        assert s2 == "\\'" && s4 == s2;
      } else {
        assert s2 == [c];
        ReplaceCharSingle(c, '"', "\\\"");
        if c == '"' {
          assert s3 == "\\\"" && s4 == s3;
        } else {
          assert s3 == [c];
          ReplaceCharSingle(c, '\n', "\\n");
          ReplaceCharSingle(c, '\r', "\\r");
        }
      }
    }
  }


  /** Replacing the backslash first is what makes the chain a per-character
      map: no later replacement's output is escaped again. */
  lemma {:induction false} EscapeJsIsMap(s: string)
    ensures EscapeJs(s) == EscapeMap(s)
  {
    if s != [] {
      var a, b := [s[0]], s[1..];
      assert s == a + b;
      var a1, b1 := ReplaceChar(a, '\\', "\\\\"), ReplaceChar(b, '\\', "\\\\");
      ReplaceCharConcat(a, b, '\\', "\\\\");
      var a2, b2 := ReplaceChar(a1, '\'', "\\'"), ReplaceChar(b1, '\'', "\\'");
      ReplaceCharConcat(a1, b1, '\'', "\\'");
      var a3, b3 := ReplaceChar(a2, '"', "\\\""), ReplaceChar(b2, '"', "\\\"");
      ReplaceCharConcat(a2, b2, '"', "\\\"");
      var a4, b4 := ReplaceChar(a3, '\n', "\\n"), ReplaceChar(b3, '\n', "\\n");
      ReplaceCharConcat(a3, b3, '\n', "\\n");
      ReplaceCharConcat(a4, b4, '\r', "\\r");
      assert EscapeJs(s) == EscapeJs(a) + EscapeJs(b);
      EscapeSingle(s[0]);
      EscapeJsIsMap(b);
    }
  }

  /** A text with none of the five special characters is left as it is. */
  lemma EscapeJsPlain(text: string)
    requires forall i :: 0 <= i < |text| ==> !Special(text[i])
    ensures EscapeJs(text) == text
  {
    EscapeJsIsMap(text);
    EscapeMapPlain(text);
  }

  lemma {:induction false} EscapeMapPlain(s: string)
    requires forall i :: 0 <= i < |s| ==> !Special(s[i])
    ensures EscapeMap(s) == s
  {
    if s != [] {
      assert forall i :: 0 <= i < |s[1..]| ==> s[1..][i] == s[i + 1];
      EscapeMapPlain(s[1..]);
    }
  }

  /** The character a two-character escape `\x` stands for. */
  function Unescape(x: char): (r: Option<char>)
    ensures r.Some? ==> Special(r.value) && EscapeChar(r.value) == ['\\', x]
  {
    if x == '\\' then Some('\\')
    else if x == '\'' then Some('\'')
    else if x == '"' then Some('"')
    else if x == 'n' then Some('\n')
    else if x == 'r' then Some('\r')
    else None
  }

  /** Reads back a string literal body written with the five escapes; a raw
      special character, a lone backslash or an unknown escape is rejected. */
  function DecodeJs(s: string): Option<string>
    decreases |s|
  {
    if s == [] then Some([])
    else if s[0] == '\\' then
      if |s| < 2 || Unescape(s[1]).None? then None
      else match DecodeJs(s[2..])
        case None => None
        case Some(t) => Some([Unescape(s[1]).value] + t)
    else if Special(s[0]) then None
    else match DecodeJs(s[1..])
      case None => None
      case Some(t) => Some([s[0]] + t)
  }

  lemma DecodeAfterEscapeChar(c: char, rest: string)
    ensures DecodeJs(EscapeChar(c) + rest) ==
      match DecodeJs(rest)
      case None => None
      case Some(t) => Some([c] + t)
  {
    var e := EscapeChar(c);
    if Special(c) {
      assert (e + rest)[2..] == rest;
    } else {
      assert (e + rest)[1..] == rest;
    }
  }

  /** Decoding an escaped string gives the string back. */
  lemma {:induction false} DecodeEscape(s: string)
    ensures DecodeJs(EscapeJs(s)) == Some(s)
  {
    EscapeJsIsMap(s);
    DecodeEscapeMap(s);
  }

  lemma {:induction false} DecodeEscapeMap(s: string)
    ensures DecodeJs(EscapeMap(s)) == Some(s)
  {
    if s != [] {
      DecodeEscapeMap(s[1..]);
      DecodeAfterEscapeChar(s[0], EscapeMap(s[1..]));
      assert [s[0]] + s[1..] == s;
    }
  }

  /** Every string the decoder accepts is the escape of what it decodes to:
      the escaper is onto the well-formed literal bodies. */
  lemma {:induction false} EscapeDecode(s: string)
    requires DecodeJs(s).Some?
    ensures EscapeJs(DecodeJs(s).value) == s
    decreases |s|
  {
    EscapeJsIsMap(DecodeJs(s).value);
    EscapeMapDecode(s);
  }

  lemma {:induction false} EscapeMapDecode(s: string)
    requires DecodeJs(s).Some?
    ensures EscapeMap(DecodeJs(s).value) == s
    decreases |s|
  {
    if s != [] {
      var t := DecodeJs(s).value;
      if s[0] == '\\' {
        EscapeMapDecode(s[2..]);
        assert t[1..] == DecodeJs(s[2..]).value;
        assert s == s[..2] + s[2..];
      } else {
        EscapeMapDecode(s[1..]);
        assert t[1..] == DecodeJs(s[1..]).value;
        assert s == [s[0]] + s[1..];
      }
    }
  }

  /** Different texts have different escapes. */
  lemma EscapeInjective(a: string, b: string)
    requires EscapeJs(a) == EscapeJs(b)
    ensures a == b
  {
    DecodeEscape(a);
    DecodeEscape(b);
  }

  // ---------------------------------------------------------------------
  // The questions array literal

  /** The escaped choices of one question: every choice must be a string. */
  function EscapeChoices(choices: seq<Json>): (r: Result<seq<string>, Error>)
    ensures r.Success? <==> forall j :: 0 <= j < |choices| ==> choices[j].JStr?
    ensures r.Failure? ==> r.error == TextNotAString
    ensures r.Success? ==> |r.value| == |choices|
    ensures r.Success? ==> forall j :: 0 <= j < |choices| ==> DecodeJs(r.value[j]) == Some(choices[j].s)
  {
    if choices == [] then Success([])
    else if !choices[0].JStr? then Failure(TextNotAString)
    else
      match EscapeChoices(choices[1..])
      case Failure(e) => Failure(e)
      case Success(rest) =>
        DecodeEscape(choices[0].s);
        assert forall j :: 1 <= j < |choices| ==> choices[j] == choices[1..][j - 1];
        Success([EscapeJs(choices[0].s)] + rest)
  }

  /** One object of the array, with `dumps` standing for `json.dumps` of the
      escaped choices. */
  function BlockText(text: string, choicesJson: string, correct: nat): string
  {
    "    {\n      question: \"" + text + "\",\n      choices: " + choicesJson
      + ",\n      correct: " + NatToString(correct) + "\n    }"
  }

  /** A question whose prompt and choices are all strings. */
  predicate Renderable(q: JsQuestion)
  {
    q.question.JStr? && forall j :: 0 <= j < |q.choices| ==> q.choices[j].JStr?
  }

  /** The object text of one question (`.replace` on a non-string raises AttributeError). */
  function RenderBlock(q: JsQuestion, dumps: seq<string> -> string): (r: Result<string, Error>)
    ensures r.Success? <==> Renderable(q)
    ensures r.Failure? ==> r.error == TextNotAString
  {
    if !q.question.JStr? then Failure(TextNotAString)
    else match EscapeChoices(q.choices)
      case Failure(e) => Failure(e)
      case Success(cs) => Success(BlockText(EscapeJs(q.question.s), dumps(cs), q.correct))
  }

  function RenderBlocks(qs: seq<JsQuestion>, dumps: seq<string> -> string): (r: Result<seq<string>, Error>)
    ensures r.Success? <==> forall i :: 0 <= i < |qs| ==> Renderable(qs[i])
    ensures r.Failure? ==> r.error == TextNotAString
    ensures r.Success? ==> |r.value| == |qs|
    ensures r.Success? ==> forall i :: 0 <= i < |qs| ==> r.value[i] == RenderBlock(qs[i], dumps).value
  {
    if qs == [] then Success([])
    else
      assert forall i :: 1 <= i < |qs| ==> qs[i] == qs[1..][i - 1];
      match RenderBlock(qs[0], dumps)
      case Failure(e) => Failure(e)
      case Success(b) =>
        match RenderBlocks(qs[1..], dumps)
        case Failure(e) => Failure(e)
        case Success(rest) => Success([b] + rest)
  }

  /** The loop body of `_format_questions_for_js`: each object, a comma unless
      it is the last, and a newline. */
  function ArrayBody(blocks: seq<string>): string
  {
    if blocks == [] then []
    else blocks[0] + (if |blocks| > 1 then "," else "") + "\n" + ArrayBody(blocks[1..])
  }

  /** `_format_questions_for_js`. */
  function FormatQuestionsForJs(qs: seq<JsQuestion>, dumps: seq<string> -> string): (r: Result<string, Error>)
    ensures r.Success? <==> forall i :: 0 <= i < |qs| ==> Renderable(qs[i])
    ensures r.Failure? ==> r.error == TextNotAString
  {
    match RenderBlocks(qs, dumps)
    case Failure(e) => Failure(e)
    case Success(blocks) => Success("[\n" + ArrayBody(blocks) + "  ]")
  }

  /** The loop writes the objects joined by ",\n", with a final newline. */
  lemma {:induction false} ArrayBodyIsJoin(blocks: seq<string>)
    ensures ArrayBody(blocks) == if blocks == [] then "" else Join(blocks, ",\n") + "\n"
  {
    if |blocks| > 1 {
      ArrayBodyIsJoin(blocks[1..]);
    }
  }

  /** The array literal is the objects, one per question and in order, joined
      by ",\n" between "[\n" and "\n  ]"; object `i` quotes the escaped prompt
      (which reads back as the prompt) and carries the index `correct`. */
  lemma FormatQuestionsShape(qs: seq<JsQuestion>, dumps: seq<string> -> string)
    requires forall i :: 0 <= i < |qs| ==> Renderable(qs[i])
    ensures var blocks := RenderBlocks(qs, dumps).value;
      && FormatQuestionsForJs(qs, dumps).value ==
           "[\n" + (if qs == [] then "" else Join(blocks, ",\n") + "\n") + "  ]"
      && forall i :: 0 <= i < |qs| ==>
           blocks[i] == BlockText(EscapeJs(qs[i].question.s), dumps(EscapeChoices(qs[i].choices).value), qs[i].correct)
           && DecodeJs(EscapeJs(qs[i].question.s)) == Some(qs[i].question.s)
  {
    var blocks := RenderBlocks(qs, dumps).value;
    ArrayBodyIsJoin(blocks);
    forall i | 0 <= i < |qs|
      ensures blocks[i] == BlockText(EscapeJs(qs[i].question.s), dumps(EscapeChoices(qs[i].choices).value), qs[i].correct)
      ensures DecodeJs(EscapeJs(qs[i].question.s)) == Some(qs[i].question.s)
    {
      assert blocks[i] == RenderBlock(qs[i], dumps).value;
      DecodeEscape(qs[i].question.s);
    }
  }

  // ---------------------------------------------------------------------
  // The generated script

  /** The values `generate_script` splices into its fixed template (the
      template's constant JavaScript text is not modelled). */
  datatype Script = Script(
    questionCount: nat,
    points: string,
    questionsLiteral: string,
    title: string,
    description: string,
    limitOneResponse: string,
    confirmation: string)

  /** `generate_script(questions)`. */
  function GenerateScript(config: QuizConfig, qs: seq<JsQuestion>, dumps: seq<string> -> string): (r: Result<Script, Error>)
    ensures r.Success? <==> forall i :: 0 <= i < |qs| ==> Renderable(qs[i])
    ensures r.Failure? ==> r.error == TextNotAString
    ensures r.Success? ==> r.value.questionCount == |qs|
    ensures r.Success? ==> r.value.questionsLiteral == FormatQuestionsForJs(qs, dumps).value
    ensures r.Success? ==> r.value.points == IntToString(config.pointsPerQuestion)
    ensures r.Success? ==> DecodeJs(r.value.title) == Some(config.title)
    ensures r.Success? ==> DecodeJs(r.value.description) == Some(config.description)
    ensures r.Success? ==> DecodeJs(r.value.confirmation) == Some(config.confirmationMessage)
    ensures r.Success? ==> (r.value.limitOneResponse == "true" <==> config.limitResponses)
    ensures r.Success? ==> (r.value.limitOneResponse == "false" <==> !config.limitResponses)
  {
    match FormatQuestionsForJs(qs, dumps)
    case Failure(e) => Failure(e)
    case Success(literal) =>
      DecodeEscape(config.title);
      DecodeEscape(config.description);
      DecodeEscape(config.confirmationMessage);
      Success(Script(|qs|, IntToString(config.pointsPerQuestion), literal,
                     EscapeJs(config.title), EscapeJs(config.description),
                     if config.limitResponses then "true" else "false",
                     EscapeJs(config.confirmationMessage)))
  }
}
