/** The variant drivers `generate_quiz.py` and `quiz_generator_batch.py`:
    the output file-name grammar, the loop over variant numbers with its
    exception policy, the listing pattern and the exit code of `main`. */
module VariantBatch {
  import opened Common
  import opened Text
  import opened QuizErrors
  import opened QuizSettings
  import opened ScriptBuilder
  import opened QuizPipeline

  // ---------------------------------------------------------------------
  // File names

  const NamePrefix: string := "AI Fundamentals | "

  /** `"AI Fundamentals | {date} | [{language}] | Variant {n}.gs"`. */
  function VariantFileName(date: string, language: string, n: int): (name: string)
    ensures |name| > |NamePrefix| && name[..|NamePrefix|] == NamePrefix
    ensures name[|name| - 3..] == ".gs"
    ensures name == "AI Fundamentals | " + date + " | [" + language + "] | Variant " + IntToString(n) + ".gs"
  {
    NamePrefix + date + " | " + ("[" + language + "]") + " | Variant " + IntToString(n) + ".gs"
  }

  /** The file name carries the language tag `[language]` that the deployer filters on. */
  lemma VariantFileNameTagged(date: string, language: string, n: int)
    ensures Contains(VariantFileName(date, language, n), "[" + language + "]")
  {
    var tag := "[" + language + "]";
    var head := NamePrefix + date + " | " + tag + " | Variant ";
    ContainsInfix(NamePrefix + date + " | ", tag, " | Variant ");
    ContainsExtend(head, IntToString(n), tag);
    ContainsExtend(head + IntToString(n), ".gs", tag);
  }

  /** The variant number can be read back from the file name: two variants of
      one run never share a file. */
  lemma VariantFileNameInjective(date: string, language: string, a: int, b: int)
    requires VariantFileName(date, language, a) == VariantFileName(date, language, b)
    ensures a == b
  {
    var head := NamePrefix + date + " | " + ("[" + language + "]") + " | Variant ";
    AffixInjective(head, IntToString(a), IntToString(b), ".gs");
    IntToStringInjective(a, b);
  }

  /** `os.path.join(output_dir, filename)`. */
  function VariantPath(outputDir: string, date: string, language: string, n: int): (p: string)
    ensures var name := VariantFileName(date, language, n);
      |name| <= |p| && p[|p| - |name|..] == name
  {
    PathJoin(outputDir, VariantFileName(date, language, n))
  }

  function PathOf(outputDir: string, date: string, language: string): int -> string
  {
    (n: int) => VariantPath(outputDir, date, language, n)
  }

  // ---------------------------------------------------------------------
  // The variant loop

  /** What one attempt did: produced its file, or raised an exception of a class. */
  datatype Attempt = Produced | Raised(cls: ExceptionClass)

  /** How the loop ended: it ran to the end, or an exception it does not catch
      left it (and the list it was building is lost with it). */
  datatype LoopEnd<S> =
    | Finished(files: seq<string>, produced: seq<int>, state: S)
    | Escaped(cls: ExceptionClass, state: S)

  predicate StrictlyIncreasing(xs: seq<int>)
  {
    forall i, j :: 0 <= i < j < |xs| ==> xs[i] < xs[j]
  }

  /** `for variant_num in range(k, total + 1)`: `step` runs one attempt on the
      loop's state, `skips` says which exception classes the `except` clause
      catches, `path` names variant `n`'s output file. */
  function RunVariants<S>(step: (S, int) -> (Attempt, S), skips: ExceptionClass -> bool, path: int -> string,
                          k: int, total: int, s: S): (r: LoopEnd<S>)
    ensures r.Finished? ==> |r.files| == |r.produced| <= if k <= total then total - k + 1 else 0
    ensures r.Finished? ==> forall i :: 0 <= i < |r.produced| ==> k <= r.produced[i] <= total
    ensures r.Finished? ==> forall i :: 0 <= i < |r.files| ==> r.files[i] == path(r.produced[i])
    ensures r.Finished? ==> StrictlyIncreasing(r.produced)
    ensures r.Escaped? ==> !skips(r.cls)
    decreases total - k
  {
    if k > total then Finished([], [], s)
    else
      var (a, s') := step(s, k);
      if a.Raised? && !skips(a.cls) then Escaped(a.cls, s')
      else
        match RunVariants(step, skips, path, k + 1, total, s')
        case Escaped(c, s'') => Escaped(c, s'')
        case Finished(fs, ns, s'') =>
          if a.Produced? then
            ProducedFront(path, k, total, fs, ns);
            Finished([path(k)] + fs, [k] + ns, s'')
          else Finished(fs, ns, s'')
  }

  /** Putting variant `k` in front of the later variants keeps the lists
      aligned, in range and increasing. */
  lemma ProducedFront(path: int -> string, k: int, total: int, fs: seq<string>, ns: seq<int>)
    requires k <= total && |fs| == |ns|
    requires forall i :: 0 <= i < |ns| ==> k + 1 <= ns[i] <= total
    requires forall i :: 0 <= i < |fs| ==> fs[i] == path(ns[i])
    requires StrictlyIncreasing(ns)
    ensures forall i :: 0 <= i < |[k] + ns| ==> k <= ([k] + ns)[i] <= total
    ensures forall i :: 0 <= i < |[path(k)] + fs| ==> ([path(k)] + fs)[i] == path(([k] + ns)[i])
    ensures StrictlyIncreasing([k] + ns)
  {
  }

  /** The variant numbers in `ns` whose attempt produced a file, in order. */
  function Producing(attempt: int -> Attempt, ns: seq<int>): (r: seq<int>)
    ensures |r| <= |ns|
  {
    if ns == [] then [] else (if attempt(ns[0]).Produced? then [ns[0]] else []) + Producing(attempt, ns[1..])
  }

  /** An attempt the loop survives: it produced, or raised a class it catches. */
  predicate Survives(a: Attempt, skips: ExceptionClass -> bool)
  {
    a.Produced? || skips(a.cls)
  }

  /** A loop step that ignores the loop state: attempt `n` is `attempt(n)`. */
  function IndependentStep(attempt: int -> Attempt): ((), int) -> (Attempt, ())
  {
    (u: (), n: int) => (attempt(n), u)
  }

  /** With attempts that do not depend on earlier ones, the loop finishes
      exactly when every attempt is survived, and then lists the variants that
      produced, in order; otherwise the first attempt not survived ends it. */
  lemma RunVariantsIndependent(attempt: int -> Attempt, skips: ExceptionClass -> bool,
                                path: int -> string, k: int, total: int)
    ensures var r := RunVariants(IndependentStep(attempt), skips, path, k, total, ());
      && (r.Finished? <==> forall j :: k <= j <= total ==> Survives(attempt(j), skips))
      && (r.Finished? ==> r.produced == Producing(attempt, Range(k, total + 1)))
      && (r.Escaped? ==> exists j :: k <= j <= total && attempt(j) == Raised(r.cls) && !skips(r.cls)
                            && forall i :: k <= i < j ==> Survives(attempt(i), skips))
  {
    RunVariantsFinishes(attempt, skips, path, k, total);
    RunVariantsProduces(attempt, skips, path, k, total);
    RunVariantsEscapes(attempt, skips, path, k, total);
  }

  /** The loop runs to the end exactly when every attempt survives. */
  lemma {:induction false} RunVariantsFinishes(attempt: int -> Attempt, skips: ExceptionClass -> bool,
                                              path: int -> string, k: int, total: int)
    ensures RunVariants(IndependentStep(attempt), skips, path, k, total, ()).Finished?
        <==> forall j :: k <= j <= total ==> Survives(attempt(j), skips)
    decreases total - k
  {
    if k <= total {
      assert IndependentStep(attempt)((), k) == (attempt(k), ());
      RunVariantsFinishes(attempt, skips, path, k + 1, total);
    }
  }

  /** A finished loop lists the variants whose attempt produced a file, in order. */
  lemma {:induction false} RunVariantsProduces(attempt: int -> Attempt, skips: ExceptionClass -> bool,
                                              path: int -> string, k: int, total: int)
    ensures var r := RunVariants(IndependentStep(attempt), skips, path, k, total, ());
      r.Finished? ==> r.produced == Producing(attempt, Range(k, total + 1))
    decreases total - k
  {
    if k <= total {
      assert IndependentStep(attempt)((), k) == (attempt(k), ());
      RunVariantsProduces(attempt, skips, path, k + 1, total);
      var xs := Range(k, total + 1);
      assert xs[0] == k && xs[1..] == Range(k + 1, total + 1);
    }
  }

  /** An escaping exception comes from the first attempt that did not survive. */
  lemma {:induction false} RunVariantsEscapes(attempt: int -> Attempt, skips: ExceptionClass -> bool,
                                             path: int -> string, k: int, total: int)
    ensures var r := RunVariants(IndependentStep(attempt), skips, path, k, total, ());
      r.Escaped? ==> exists j :: k <= j <= total && attempt(j) == Raised(r.cls) && !skips(r.cls)
                       && forall i :: k <= i < j ==> Survives(attempt(i), skips)
    decreases total - k
  {
    if k <= total {
      assert IndependentStep(attempt)((), k) == (attempt(k), ());
      RunVariantsEscapes(attempt, skips, path, k + 1, total);
    }
  }


  // ---------------------------------------------------------------------
  // generate_quiz.py

  const BatchTitle: string := "AI Fundamentals"
  const BatchDescription: string := "Test your knowledge across AI fundamentals, ethics, and practical applications"

  /** The configuration `generate_quiz_variants` builds for a language. */
  function BatchConfig(language: string): (c: QuizConfig)
    ensures c.title == BatchTitle && c.questionCount == 33 && c.pointsPerQuestion == 5
    ensures c.language == Upper(language)
  {
    NewQuizConfig(BatchTitle, BatchDescription, 33, 5, true, true, false, DefaultConfirmation, language)
  }

  /** One attempt of `generate_quiz.py`'s loop: the real generator, on the
      explicit output path and variant number. */
  function QuizAttempt(env: Env, outputDir: string, date: string, language: string, gen: Generator, n: int): (r: (Attempt, Generator))
    ensures r.0.Produced? <==>
      GenerateForLanguage(gen, env, language, Some(VariantPath(outputDir, date, language, n)), Some(n)).0.Success?
    ensures r.0.Raised? ==> r.0.cls != KeyboardInterrupt && r.0.cls != RuntimeError
  {
    var (outcome, gen') := GenerateForLanguage(gen, env, language, Some(VariantPath(outputDir, date, language, n)), Some(n));
    (if outcome.Success? then Produced else Raised(ClassOf(outcome.error)), gen')
  }

  function QuizStep(env: Env, outputDir: string, date: string, language: string): (Generator, int) -> (Attempt, Generator)
  {
    (g: Generator, n: int) => QuizAttempt(env, outputDir, date, language, g, n)
  }

  /** `except Exception` catches every class except `KeyboardInterrupt`. */
  predicate CatchesException(c: ExceptionClass)
  {
    c != KeyboardInterrupt
  }

  /** `generate_quiz_variants` of `generate_quiz.py`: creating the output
      directory may raise; then every variant is attempted on one generator. */
  function GenerateQuizVariants(env: Env, language: string, numVariants: int, outputDir: string, date: string,
                                dirCreated: bool): (r: Result<seq<string>, ExceptionClass>)
    ensures !dirCreated ==> r == Failure(OSError)
    ensures r.Success? ==> |r.value| <= if numVariants > 0 then numVariants else 0
  {
    if !dirCreated then Failure(OSError)
    else
      match RunVariants(QuizStep(env, outputDir, date, language), CatchesException, PathOf(outputDir, date, language),
                        1, numVariants, NewGenerator(BatchConfig(language)))
      case Finished(files, _, _) => Success(files)
      case Escaped(c, _) => Failure(c)
  }

  /** A failing variant never stops `generate_quiz.py`'s loop: once the
      directory exists the run always returns its list. */
  lemma {:induction false} QuizLoopNeverEscapes(env: Env, outputDir: string, date: string, language: string,
                                                k: int, total: int, g: Generator)
    ensures RunVariants(QuizStep(env, outputDir, date, language), CatchesException,
                        PathOf(outputDir, date, language), k, total, g).Finished?
    decreases total - k
  {
    if k <= total {
      var (a, g') := QuizAttempt(env, outputDir, date, language, g, k);
      QuizLoopNeverEscapes(env, outputDir, date, language, k + 1, total, g');
    }
  }

  lemma GenerateQuizVariantsReturns(env: Env, language: string, numVariants: int, outputDir: string, date: string)
    ensures GenerateQuizVariants(env, language, numVariants, outputDir, date, true).Success?
  {
    QuizLoopNeverEscapes(env, outputDir, date, language, 1, numVariants, NewGenerator(BatchConfig(language)));
  }

  // ---------------------------------------------------------------------
  // quiz_generator_batch.py

  /** `quiz_generator_batch.py`'s loop catches `RuntimeError` only. */
  predicate CatchesRuntimeError(c: ExceptionClass)
  {
    c == RuntimeError
  }

  /** `generate_quiz_variants` of `quiz_generator_batch.py`, with each
      variant's generation an outcome oracle. */
  function BatchVariants(attempt: int -> Attempt, language: string, numVariants: int, outputDir: string, date: string,
                         dirCreated: bool): (r: Result<seq<string>, ExceptionClass>)
    ensures !dirCreated ==> r == Failure(OSError)
    ensures r.Failure? ==> r.error != RuntimeError
    ensures r.Success? ==> |r.value| <= if numVariants > 0 then numVariants else 0
  {
    if !dirCreated then Failure(OSError)
    else
      match RunVariants(IndependentStep(attempt), CatchesRuntimeError, PathOf(outputDir, date, language), 1, numVariants, ())
      case Finished(files, _, _) => Success(files)
      case Escaped(c, _) => Failure(c)
  }

  /** The batch loop: it returns exactly when every attempt produced or raised
      `RuntimeError`, and then lists the producing variants in increasing
      order; otherwise the first other exception leaves it. */
  lemma BatchVariantsExact(attempt: int -> Attempt, language: string, numVariants: int, outputDir: string, date: string)
    ensures var r := BatchVariants(attempt, language, numVariants, outputDir, date, true);
      && (r.Success? <==> forall n :: 1 <= n <= numVariants ==> Survives(attempt(n), CatchesRuntimeError))
      && (r.Success? ==> r.value == Paths(outputDir, date, language, Producing(attempt, Range(1, numVariants + 1))))
      && (r.Failure? ==> exists n :: 1 <= n <= numVariants && attempt(n) == Raised(r.error) && r.error != RuntimeError
                           && forall m :: 1 <= m < n ==> Survives(attempt(m), CatchesRuntimeError))
  {
    RunVariantsIndependent(attempt, CatchesRuntimeError, PathOf(outputDir, date, language), 1, numVariants);
    var r := RunVariants(IndependentStep(attempt), CatchesRuntimeError, PathOf(outputDir, date, language), 1, numVariants, ());
    if r.Finished? {
      assert |r.files| == |Paths(outputDir, date, language, r.produced)|;
      assert forall i :: 0 <= i < |r.files| ==> r.files[i] == PathOf(outputDir, date, language)(r.produced[i]);
    }
  }

  /** The output paths of a list of variant numbers. */
  function Paths(outputDir: string, date: string, language: string, ns: seq<int>): (ps: seq<string>)
    ensures |ps| == |ns|
    ensures forall i :: 0 <= i < |ns| ==> ps[i] == VariantPath(outputDir, date, language, ns[i])
  {
    seq(|ns|, i requires 0 <= i < |ns| => VariantPath(outputDir, date, language, ns[i]))
  }

  // ---------------------------------------------------------------------
  // Listing and main

  /** `list_generated_files`' glob pattern; the empty language means none given. */
  function ListPattern(language: string): (p: string)
    ensures language == [] ==> p == "AI Fundamentals | * | *.gs"
    ensures language != [] ==> Contains(p, "[" + Upper(language) + "]")
    ensures language != [] ==> p == "AI Fundamentals | * | [" + Upper(language) + "] | *.gs"
    ensures |p| > |NamePrefix| && p[..|NamePrefix|] == NamePrefix
  {
    if language == [] then "AI Fundamentals | * | *.gs"
    else
      var tag := "[" + Upper(language) + "]";
      ContainsInfix("AI Fundamentals | * | ", tag, " | *.gs");
      "AI Fundamentals | * | " + tag + " | *.gs"
  }

  /** Without a language the pattern has no tag at all. */
  lemma ListPatternUntagged(language: string)
    requires language == []
    ensures !Contains(ListPattern(language), "[")
  {
    var p := ListPattern(language);
    assert forall i :: 0 <= i < |p| ==> p[i] != '[';
    NotContainsChar(p, "[", 0);
  }

  /** `--language` is one of the three choices `argparse` admits. */
  datatype LanguageChoice = ENG | SRB | BOTH

  function LanguageCode(c: LanguageChoice): string
    requires c != BOTH
  {
    if c == ENG then "ENG" else "SRB"
  }

  /** The listing language `main` passes: none for `BOTH`. */
  function ListingLanguage(c: LanguageChoice): (l: string)
    ensures l == [] <==> c == BOTH
  {
    if c == BOTH then "" else LanguageCode(c)
  }

  datatype Args = Args(language: LanguageChoice, variants: int, outputDir: string, listFiles: bool)

  /** The end of a run: an exit code with the files generated, or an exception
      that left `main`. */
  datatype Exit = Exited(code: int, files: seq<string>) | Crashed(cls: ExceptionClass)

  /** `main` of `generate_quiz.py`; `dirCreated` says whether the output
      directory could be created. */
  function GenerateQuizMain(args: Args, env: Env, date: string, dirCreated: bool): (r: Exit)
    ensures r.Exited?
    ensures args.listFiles ==> r == Exited(0, [])
    ensures !args.listFiles && args.variants <= 0 ==> r == Exited(1, [])
    ensures r.code == 0 <==> args.listFiles || r.files != []
    ensures r.code == 0 || r.code == 1
  {
    if args.listFiles then Exited(0, [])
    else if args.variants <= 0 then Exited(1, [])
    else
      var files :=
        if args.language == BOTH then
          match GenerateQuizVariants(env, "ENG", args.variants, args.outputDir, date, dirCreated)
          case Failure(c) => Failure(c)
          case Success(eng) =>
            match GenerateQuizVariants(env, "SRB", args.variants, args.outputDir, date, dirCreated)
            case Failure(c) => Failure(c)
            case Success(srb) => Success(eng + srb)
        else GenerateQuizVariants(env, LanguageCode(args.language), args.variants, args.outputDir, date, dirCreated);
      match files
      case Failure(_) => Exited(1, [])
      case Success(fs) => if fs != [] then Exited(0, fs) else Exited(1, [])
  }

  /** For `BOTH`, the files are the English run's followed by the Serbian run's,
      each from a freshly seeded generator. */
  lemma GenerateQuizMainBoth(args: Args, env: Env, date: string)
    requires !args.listFiles && args.variants > 0 && args.language == BOTH
    ensures var eng := GenerateQuizVariants(env, "ENG", args.variants, args.outputDir, date, true);
      var srb := GenerateQuizVariants(env, "SRB", args.variants, args.outputDir, date, true);
      && eng.Success? && srb.Success?
      && GenerateQuizMain(args, env, date, true).files == (if eng.value + srb.value != [] then eng.value + srb.value else [])
  {
    GenerateQuizVariantsReturns(env, "ENG", args.variants, args.outputDir, date);
    GenerateQuizVariantsReturns(env, "SRB", args.variants, args.outputDir, date);
  }

  /** `main` of `quiz_generator_batch.py`: it catches `KeyboardInterrupt` and
      `RuntimeError`; anything else ends the program with a traceback. */
  function BatchMain(args: Args, attempt: (string, int) -> Attempt, date: string, dirCreated: bool): (r: Exit)
    ensures args.listFiles ==> r == Exited(0, [])
    ensures !args.listFiles && args.variants <= 0 ==> r == Exited(1, [])
    ensures r.Exited? ==> (r.code == 0 <==> args.listFiles || r.files != [])
    ensures r.Crashed? ==> r.cls != RuntimeError && r.cls != KeyboardInterrupt
    ensures !args.listFiles && args.variants > 0 && !dirCreated ==> r == Crashed(OSError)
  {
    if args.listFiles then Exited(0, [])
    else if args.variants <= 0 then Exited(1, [])
    else
      var files :=
        if args.language == BOTH then
          match BatchVariants((n: int) => attempt("ENG", n), "ENG", args.variants, args.outputDir, date, dirCreated)
          case Failure(c) => Failure(c)
          case Success(eng) =>
            match BatchVariants((n: int) => attempt("SRB", n), "SRB", args.variants, args.outputDir, date, dirCreated)
            case Failure(c) => Failure(c)
            case Success(srb) => Success(eng + srb)
        else
          var code := LanguageCode(args.language);
          BatchVariants((n: int) => attempt(code, n), code, args.variants, args.outputDir, date, dirCreated);
      match files
      case Failure(c) => if c == KeyboardInterrupt || c == RuntimeError then Exited(1, []) else Crashed(c)
      case Success(fs) => if fs != [] then Exited(0, fs) else Exited(1, [])
  }

  /** Attempts that all produce except variant `k`, which raises `cls`. */
  function FailsOnlyAt(k: int, cls: ExceptionClass): int -> Attempt
  {
    (n: int) => if n == k then Raised(cls) else Produced
  }

  /** One step of `Producing` over a range of variant numbers. */
  lemma ProducingRange(attempt: int -> Attempt, lo: int, hi: int)
    requires lo < hi
    ensures Producing(attempt, Range(lo, hi))
         == (if attempt(lo).Produced? then [lo] else []) + Producing(attempt, Range(lo + 1, hi))
  {
    assert Range(lo, hi)[0] == lo && Range(lo, hi)[1..] == Range(lo + 1, hi);
  }

  /** Of variants 1 to 5, all but the third produce. */
  lemma ProducingAllButThird()
    ensures Producing(FailsOnlyAt(3, RuntimeError), Range(1, 6)) == [1, 2, 4, 5]
  {
    var a := FailsOnlyAt(3, RuntimeError);
    ProducingRange(a, 1, 6);
    ProducingRange(a, 2, 6);
    ProducingRange(a, 3, 6);
    ProducingRange(a, 4, 6);
    ProducingRange(a, 5, 6);
    assert Producing(a, Range(6, 6)) == [];
    assert a(1).Produced? && a(2).Produced? && a(3).Raised? && a(4).Produced? && a(5).Produced?;
    assert [1] + ([2] + ([] + ([4] + ([5] + [])))) == [1, 2, 4, 5];
  }

  /** Five variants where the third raises `RuntimeError`: the batch keeps
      going and returns variants 1, 2, 4 and 5. */
  lemma BatchSkipsRuntimeError(language: string, outputDir: string, date: string)
    ensures BatchVariants(FailsOnlyAt(3, RuntimeError), language, 5, outputDir, date, true)
              == Success(Paths(outputDir, date, language, [1, 2, 4, 5]))
  {
    var attempt := FailsOnlyAt(3, RuntimeError);
    BatchVariantsExact(attempt, language, 5, outputDir, date);
    assert forall n :: 1 <= n <= 5 ==> Survives(attempt(n), CatchesRuntimeError);
    ProducingAllButThird();
  }

  /** The same batch with a `ValueError` at variant 3 ends with that error. */
  lemma BatchStopsOnValueError(outputDir: string, date: string)
    ensures BatchVariants(FailsOnlyAt(3, ValueError), "ENG", 5, outputDir, date, true) == Failure(ValueError)
  {
    var attempt := FailsOnlyAt(3, ValueError);
    BatchVariantsExact(attempt, "ENG", 5, outputDir, date);
    assert !Survives(attempt(3), CatchesRuntimeError);
  }
}
