/** `QuestionGenerator`'s multi-file workflow: compose the variant title,
    load and sample, convert, shuffle, render and save, then restore the
    title; and `generate_quiz_for_language`, which picks the files and the
    default output path. */
module QuizPipeline {
  import opened Common
  import opened Text
  import opened QuizErrors
  import opened Randomness
  import opened QuestionBank
  import opened AnswerShuffle
  import opened QuizSettings
  import opened ScriptBuilder

  /** What the workflow depends on besides the generator: the question files,
      the generator's stream of draws, `json.dumps` on a list of strings, and
      whether saving to a path succeeds. */
  datatype Env = Env(store: Store, rs: Stream, dumps: seq<string> -> string, writable: string -> bool)

  /** A `QuestionGenerator`: its configuration and how many draws it has used. */
  datatype Generator = Generator(config: QuizConfig, pos: nat)

  /** The constructor re-seeds the process-wide generator, so every new
      generator starts at the beginning of the same stream. */
  function NewGenerator(config: QuizConfig): (g: Generator)
    ensures g.pos == 0 && g.config == config
  {
    Generator(config, 0)
  }

  /** `"{title} [{LANG}] Variant {n}"`, or `"{title} [{LANG}]"` without a variant. */
  function ComposeTitle(original: string, language: string, variant: Option<int>): (t: string)
    ensures |original| + |language| + 3 <= |t|
    ensures t[..|original|] == original
    ensures t[|original|..|original| + |language| + 3] == " [" + language + "]"
    ensures variant.None? <==> |t| == |original| + |language| + 3
    ensures variant.None? ==> t == original + " [" + language + "]"
    ensures variant.Some? ==> t == original + " [" + language + "] Variant " + IntToString(variant.value)
  {
    var tagged := original + " [" + language + "]";
    assert tagged[..|original|] == original;
    if variant.Some? then tagged + " Variant " + IntToString(variant.value) else tagged
  }

  /** The variant number can be read back from a composed title. */
  lemma ComposeTitleInjective(original: string, language: string, a: Option<int>, b: Option<int>)
    requires ComposeTitle(original, language, a) == ComposeTitle(original, language, b)
    ensures a == b
  {
    if a.Some? && b.Some? {
      var n := |original| + |language| + 3 + 9;
      assert ComposeTitle(original, language, a)[n..] == IntToString(a.value);
      assert ComposeTitle(original, language, b)[n..] == IntToString(b.value);
      IntToStringInjective(a.value, b.value);
    }
  }

  /** Load and sample the files, convert every record with shuffled choices,
      and shuffle the whole list. */
  function PrepareQuestions(store: Store, specs: seq<FileSpec>, rs: Stream, pos: nat): (r: (Result<seq<JsQuestion>, Error>, nat))
    ensures r.0.Success? <==> forall i :: 0 <= i < |specs| ==> CanSupply(store, specs[i])
    ensures r.0.Failure? ==> r.0.error == LoadFromMultipleFiles(store, specs, rs, pos).0.error
    ensures r.0.Success? ==> |r.0.value| == Sum(Counts(specs))
  {
    var (loaded, pos1) := LoadFromMultipleFiles(store, specs, rs, pos);
    if loaded.Failure? then (Failure(loaded.error), pos1)
    else
      ConvertWellFormed(loaded.value, true, rs, pos1);
      var (converted, pos2) := ConvertFormat(loaded.value, true, rs, pos1);
      var (shuffled, pos3) := Shuffle(converted.value, rs, pos2);
      (Success(shuffled), pos3)
  }

  /** The quiz's questions are a permutation of the converted records, and each
      is some loaded record converted: `choices[correct]` is that record's
      correct answer. */
  lemma PrepareIsPermutation(store: Store, specs: seq<FileSpec>, rs: Stream, pos: nat)
    requires PrepareQuestions(store, specs, rs, pos).0.Success?
    ensures var (loaded, pos1) := LoadFromMultipleFiles(store, specs, rs, pos);
      && loaded.Success?
      && var converted := ConvertFormat(loaded.value, true, rs, pos1).0;
         && converted.Success?
         && var quiz := PrepareQuestions(store, specs, rs, pos).0.value;
            && multiset(quiz) == multiset(converted.value)
            && forall i :: 0 <= i < |quiz| ==>
                 exists k :: 0 <= k < |loaded.value| && Converted(loaded.value[k], quiz[i], true)
  {
    var (loaded, pos1) := LoadFromMultipleFiles(store, specs, rs, pos);
    ConvertWellFormed(loaded.value, true, rs, pos1);
    ConvertFormatCorrect(loaded.value, true, rs, pos1);
    var converted := ConvertFormat(loaded.value, true, rs, pos1).0.value;
    var quiz := PrepareQuestions(store, specs, rs, pos).0.value;
    forall i | 0 <= i < |quiz|
      ensures exists k :: 0 <= k < |loaded.value| && Converted(loaded.value[k], quiz[i], true)
    {
      assert quiz[i] in multiset(converted);
      var k :| 0 <= k < |converted| && converted[k] == quiz[i];
      assert Converted(loaded.value[k], converted[k], true);
    }
  }

  /** `generate_quiz_from_multiple_files` as written: the suffixed title is put
      back on the success path only; on any exception the generator keeps it. */
  function GenerateFromMultipleFilesAsWritten(gen: Generator, env: Env, specs: seq<FileSpec>, outputPath: string,
                                              variant: Option<int>): (r: (Result<Script, Error>, Generator))
    ensures r.0.Success? ==> r.1.config == gen.config
    ensures r.0.Failure? ==> r.1.config == gen.config.(title := ComposeTitle(gen.config.title, gen.config.language, variant))
  {
    var cfg := gen.config.(title := ComposeTitle(gen.config.title, gen.config.language, variant));
    var (quiz, pos1) := PrepareQuestions(env.store, specs, env.rs, gen.pos);
    if quiz.Failure? then (Failure(quiz.error), Generator(cfg, pos1))
    else
      var script := GenerateScript(cfg, quiz.value, env.dumps);
      if script.Failure? then (Failure(script.error), Generator(cfg, pos1))
      else if !env.writable(outputPath) then (Failure(WriteFailed(outputPath)), Generator(cfg, pos1))
      else (Success(script.value), Generator(gen.config, pos1))
  }

  /** `generate_quiz_from_multiple_files` with the title put back on every path. */
  function GenerateFromMultipleFiles(gen: Generator, env: Env, specs: seq<FileSpec>, outputPath: string,
                                     variant: Option<int>): (r: (Result<Script, Error>, Generator))
    ensures r.1.config == gen.config
    ensures r.0 == GenerateFromMultipleFilesAsWritten(gen, env, specs, outputPath, variant).0
    ensures r.1.pos == GenerateFromMultipleFilesAsWritten(gen, env, specs, outputPath, variant).1.pos
  {
    var (outcome, after) := GenerateFromMultipleFilesAsWritten(gen, env, specs, outputPath, variant);
    (outcome, after.(config := gen.config))
  }

  /** The loaded, converted and shuffled questions at draw position `pos`
      are all renderable: the run can only fail on saving. */
  predicate Renders(store: Store, specs: seq<FileSpec>, rs: Stream, pos: nat)
  {
    var quiz := PrepareQuestions(store, specs, rs, pos).0;
    quiz.Success? && forall i :: 0 <= i < |quiz.value| ==> Renderable(quiz.value[i])
  }

  /** A run succeeds exactly when its questions render and its output path is
      writable, and either way it uses the draws of preparing the questions. */
  lemma GenerateOutcome(gen: Generator, env: Env, specs: seq<FileSpec>, outputPath: string, variant: Option<int>)
    ensures var r := GenerateFromMultipleFilesAsWritten(gen, env, specs, outputPath, variant);
      && (r.0.Success? <==> Renders(env.store, specs, env.rs, gen.pos) && env.writable(outputPath))
      && r.1.pos == PrepareQuestions(env.store, specs, env.rs, gen.pos).1
  {
  }

  /** A run whose questions render and whose output path is writable succeeds:
      the form title reads back as the composed title and the quiz holds the
      sum of the per-file counts. */
  lemma GenerateSucceeds(gen: Generator, env: Env, specs: seq<FileSpec>, outputPath: string, variant: Option<int>)
    requires Renders(env.store, specs, env.rs, gen.pos)
    requires env.writable(outputPath)
    ensures var r := GenerateFromMultipleFiles(gen, env, specs, outputPath, variant).0;
      && r.Success?
      && DecodeJs(r.value.title) == Some(ComposeTitle(gen.config.title, gen.config.language, variant))
      && r.value.questionCount == Sum(Counts(specs))
  {
    GenerateOutcome(gen, env, specs, outputPath, variant);
  }

  /** The default output path of `generate_quiz_for_language`. */
  function DefaultOutputPath(language: string, variant: Option<int>): (p: string)
    ensures |p| >= 18 && p[..15] == "generated_quiz_"
    ensures p[|p| - 3..] == ".gs"
    ensures variant.None? ==> p == "generated_quiz_" + Lower(language) + ".gs"
    ensures variant.Some? ==> p == "generated_quiz_" + Lower(language) + "_variant_" + IntToString(variant.value) + ".gs"
  {
    "generated_quiz_" + Lower(language)
      + (if variant.Some? then "_variant_" + IntToString(variant.value) else "") + ".gs"
  }

  /** Different variants of one language get different default paths. */
  lemma DefaultOutputPathInjective(language: string, a: int, b: int)
    requires DefaultOutputPath(language, Some(a)) == DefaultOutputPath(language, Some(b))
    ensures a == b
  {
    var n := 15 + |language| + 9;
    var pa, pb := DefaultOutputPath(language, Some(a)), DefaultOutputPath(language, Some(b));
    assert pa[n..|pa| - 3] == IntToString(a);
    assert pb[n..|pb| - 3] == IntToString(b);
    IntToStringInjective(a, b);
  }

  /** `generate_quiz_for_language`: the language is stored upper-cased before
      the file table is consulted, so it stays changed even when the language
      is rejected. */
  function GenerateForLanguage(gen: Generator, env: Env, language: string, outputPath: Option<string>,
                               variant: Option<int>): (r: (Result<Script, Error>, Generator))
    ensures r.1.config == gen.config.(language := Upper(language))
    ensures Upper(language) != "ENG" && Upper(language) != "SRB" ==> r.0 == Failure(UnsupportedLanguage(Upper(language)))
  {
    var gen1 := gen.(config := gen.config.(language := Upper(language)));
    match FileConfigsForLanguage(language)
    case Failure(e) => (Failure(e), gen1)
    case Success(specs) =>
      var path := if outputPath.Some? then outputPath.value else DefaultOutputPath(language, variant);
      GenerateFromMultipleFiles(gen1, env, specs, path, variant)
  }

  /** For a supported language the run is the multi-file workflow on that
      language's files and the requested (or default) path. */
  lemma GenerateForLanguageRuns(gen: Generator, env: Env, language: string, outputPath: Option<string>, variant: Option<int>)
    requires Upper(language) == "ENG" || Upper(language) == "SRB"
    ensures var gen1 := gen.(config := gen.config.(language := Upper(language)));
      var path := if outputPath.Some? then outputPath.value else DefaultOutputPath(Upper(language), variant);
      && FileConfigsForLanguage(language).Success?
      && GenerateForLanguage(gen, env, language, outputPath, variant)
         == GenerateFromMultipleFiles(gen1, env, FileConfigsForLanguage(language).value, path, variant)
  {
    LowerOfUpper(language);
  }

  /** The workflow as written, run twice on one generator: when the first
      variant cannot save its output (so fails after its title was composed)
      and the second variant succeeds, the second variant's form title
      carries both suffixes. */
  lemma AsWrittenTitleAccumulates(gen: Generator, env: Env, specs: seq<FileSpec>, path1: string, path2: string)
    requires !env.writable(path1)
    requires Renders(env.store, specs, env.rs, PrepareQuestions(env.store, specs, env.rs, gen.pos).1)
    requires env.writable(path2)
    ensures var gen2 := GenerateFromMultipleFilesAsWritten(gen, env, specs, path1, Some(1)).1;
      var r2 := GenerateFromMultipleFilesAsWritten(gen2, env, specs, path2, Some(2)).0;
      var lang := gen.config.language;
      && r2.Success?
      && DecodeJs(r2.value.title) == Some(ComposeTitle(ComposeTitle(gen.config.title, lang, Some(1)), lang, Some(2)))
      && DecodeJs(r2.value.title) != Some(ComposeTitle(gen.config.title, lang, Some(2)))
  {
    var gen2 := GenerateFromMultipleFilesAsWritten(gen, env, specs, path1, Some(1)).1;
    GenerateOutcome(gen, env, specs, path1, Some(1));
    GenerateOutcome(gen2, env, specs, path2, Some(2));
    var lang := gen.config.language;
    var t1 := ComposeTitle(gen.config.title, lang, Some(1));
    var t12 := ComposeTitle(t1, lang, Some(2));
    var t2 := ComposeTitle(gen.config.title, lang, Some(2));
    assert |t1| > |gen.config.title| + |lang| + 3;
    assert |t12| > |t2|;
  }

  /** With the title restored on every path, a failed variant leaves nothing
      behind in the next variant's title. */
  lemma TitleIndependentOfEarlierFailures(gen: Generator, env: Env, specs: seq<FileSpec>, path1: string, path2: string)
    requires Renders(env.store, specs, env.rs, PrepareQuestions(env.store, specs, env.rs, gen.pos).1)
    requires env.writable(path2)
    ensures var gen2 := GenerateFromMultipleFiles(gen, env, specs, path1, Some(1)).1;
      var r2 := GenerateFromMultipleFiles(gen2, env, specs, path2, Some(2)).0;
      r2.Success? && DecodeJs(r2.value.title) == Some(ComposeTitle(gen.config.title, gen.config.language, Some(2)))
  {
    var gen2 := GenerateFromMultipleFiles(gen, env, specs, path1, Some(1)).1;
    GenerateOutcome(gen, env, specs, path1, Some(1));
    GenerateOutcome(gen2, env, specs, path2, Some(2));
    GenerateSucceeds(gen2, env, specs, path2, Some(2));
  }
}
