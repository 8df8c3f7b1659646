/** `deploy_batch.py`: pick the generated scripts of one language, hand the
    glob pattern to the deployer, and write the deployed quizzes' edit links
    to a text file grouped by language. The file system and the deployer are
    parameters: `found` is what the glob matched, `authenticated` whether
    authentication succeeded, and `deploy` what the deployer returns for a
    pattern. */
module DeployBatch {
  import opened Common
  import opened Text
  import VariantBatch

  /** What the deployer reports for one quiz; `name` is absent when it gave none. */
  datatype Deployed = Deployed(name: Option<string>, variant: string, editUrl: string)

  /** `q.get('name', '')`. */
  function NameOf(q: Deployed): string
  {
    if q.name.Some? then q.name.value else ""
  }

  /** The literal tag `[language]` a file or quiz name carries. */
  function Tag(language: string): string
  {
    "[" + language + "]"
  }

  function HasTag(tag: string): string -> bool
  {
    (f: string) => Contains(f, tag)
  }

  function NameHasTag(tag: string): Deployed -> bool
  {
    (q: Deployed) => Contains(NameOf(q), tag)
  }

  // ---------------------------------------------------------------------
  // Selecting the files of one language

  /** `[f for f in quiz_files if f"[{language}]" in f]`. */
  function SelectLanguage(files: seq<string>, language: string): (r: seq<string>)
    ensures |r| <= |files|
  {
    FilterLength(files, HasTag(Tag(language)));
    Filter(files, HasTag(Tag(language)))
  }

  /** A file is selected exactly when it was found and carries the tag. */
  lemma SelectLanguageMembers(files: seq<string>, language: string, f: string)
    ensures f in SelectLanguage(files, language) <==> f in files && Contains(f, Tag(language))
  {
    FilterMembership(files, HasTag(Tag(language)), f);
  }

  /** Selection keeps the files in the order they were found: selecting from
      two lists one after the other is selecting from the joined list. */
  lemma SelectLanguageOrder(a: seq<string>, b: seq<string>, language: string)
    ensures SelectLanguage(a + b, language) == SelectLanguage(a, language) + SelectLanguage(b, language)
  {
    FilterConcat(a, b, HasTag(Tag(language)));
  }

  /** Every script the generator wrote for a language passes that language's filter. */
  lemma GeneratedFileSelected(files: seq<string>, date: string, language: string, n: int)
    requires VariantBatch.VariantFileName(date, language, n) in files
    ensures VariantBatch.VariantFileName(date, language, n) in SelectLanguage(files, language)
  {
    VariantBatch.VariantFileNameTagged(date, language, n);
    SelectLanguageMembers(files, language, VariantBatch.VariantFileName(date, language, n));
  }

  // ---------------------------------------------------------------------
  // The URL file

  const EnglishHeading: string := "\U{1F1FA}\U{1F1F8} ENGLISH QUIZZES:"
  const SerbianHeading: string := "\U{1F1F7}\U{1F1F8} SERBIAN QUIZZES:"

  /** `/tmp/quiz_urls_{language.lower()}.txt`, or the all-languages file. */
  function UrlsPath(language: string): (p: string)
    ensures language == [] ==> p == "/tmp/quiz_urls_all.txt"
    ensures language != [] ==> p == "/tmp/quiz_urls_" + Lower(language) + ".txt"
  {
    if language == [] then "/tmp/quiz_urls_all.txt" else "/tmp/quiz_urls_" + Lower(language) + ".txt"
  }

  function UrlsHeader(language: string): (h: string)
    ensures language != [] ==> h == "Deployed " + language + " Quiz URLs:"
  {
    if language == [] then "Deployed Quiz URLs (All Languages):" else "Deployed " + language + " Quiz URLs:"
  }

  /** One line of the listing: `Variant {variant}: {edit_url}`. */
  function LineOf(q: Deployed): string
  {
    "Variant " + q.variant + ": " + q.editUrl + "\n"
  }

  function Lines(qs: seq<Deployed>): string
  {
    if qs == [] then "" else LineOf(qs[0]) + Lines(qs[1..])
  }

  function EnglishGroup(deployed: seq<Deployed>): seq<Deployed>
  {
    Filter(deployed, NameHasTag("[ENG]"))
  }

  function SerbianGroup(deployed: seq<Deployed>): seq<Deployed>
  {
    Filter(deployed, NameHasTag("[SRB]"))
  }

  /** A group written under its heading, or nothing when it is empty. */
  function Section(heading: string, group: seq<Deployed>): string
  {
    if group == [] then "" else "\n" + heading + "\n" + Repeat('-', 20) + "\n" + Lines(group)
  }

  /** The listing after the header: the English group, the Serbian group,
      and every quiz when neither group has a member. */
  function UrlsBody(deployed: seq<Deployed>): string
  {
    var eng, srb := EnglishGroup(deployed), SerbianGroup(deployed);
    Section(EnglishHeading, eng) + Section(SerbianHeading, srb)
      + (if eng == [] && srb == [] then Lines(deployed) else "")
  }

  /** The whole file: the header, an underline of `=` as long as the header,
      then the grouped listing. */
  function UrlsText(language: string, deployed: seq<Deployed>): (t: string)
    ensures var h := UrlsHeader(language);
      && |h| + 1 + |h| + 1 <= |t|
      && t[..|h|] == h && t[|h|] == '\n'
      && (forall i :: |h| < i <= 2 * |h| ==> t[i] == '=')
      && t[2 * |h| + 1] == '\n'
  {
    var h := UrlsHeader(language);
    var t := h + "\n" + Repeat('=', |h|) + "\n" + UrlsBody(deployed);
    assert forall i :: |h| < i <= 2 * |h| ==> t[i] == Repeat('=', |h|)[i - |h| - 1];
    t
  }

  /** The quizzes that get a line in the file, in the order they are written. */
  function Listed(deployed: seq<Deployed>): seq<Deployed>
  {
    var eng, srb := EnglishGroup(deployed), SerbianGroup(deployed);
    if eng == [] && srb == [] then deployed else eng + srb
  }

  /** Which quizzes get a line: every quiz named with an `[ENG]` or `[SRB]` tag,
      and every quiz at all when no name carries either tag; nothing that was
      not deployed. */
  lemma ListedMembers(deployed: seq<Deployed>, q: Deployed)
    ensures q in Listed(deployed) ==> q in deployed
    ensures q in deployed && (Contains(NameOf(q), "[ENG]") || Contains(NameOf(q), "[SRB]")) ==> q in Listed(deployed)
    ensures (q in deployed && forall p :: p in deployed ==> !Contains(NameOf(p), "[ENG]") && !Contains(NameOf(p), "[SRB]"))
              ==> q in Listed(deployed)
  {
    FilterMembership(deployed, NameHasTag("[ENG]"), q);
    FilterMembership(deployed, NameHasTag("[SRB]"), q);
    var eng, srb := EnglishGroup(deployed), SerbianGroup(deployed);
    if forall p :: p in deployed ==> !Contains(NameOf(p), "[ENG]") && !Contains(NameOf(p), "[SRB]") {
      if eng != [] {
        FilterMembership(deployed, NameHasTag("[ENG]"), eng[0]);
      }
      if srb != [] {
        FilterMembership(deployed, NameHasTag("[SRB]"), srb[0]);
      }
    }
  }

  lemma {:induction false} LinesMention(qs: seq<Deployed>, q: Deployed)
    requires q in qs
    ensures Contains(Lines(qs), LineOf(q))
    decreases |qs|
  {
    if qs[0] == q {
      assert Lines(qs) == [] + LineOf(q) + Lines(qs[1..]);
      ContainsInfix([], LineOf(q), Lines(qs[1..]));
    } else {
      LinesMention(qs[1..], q);
      assert Lines(qs) == LineOf(qs[0]) + Lines(qs[1..]) + [];
      ContainsWithin(LineOf(qs[0]), Lines(qs[1..]), [], LineOf(q));
    }
  }

  lemma SectionMentions(heading: string, group: seq<Deployed>, q: Deployed)
    requires q in group
    ensures Contains(Section(heading, group), LineOf(q))
  {
    LinesMention(group, q);
    var prefix := "\n" + heading + "\n" + Repeat('-', 20) + "\n";
    assert Section(heading, group) == prefix + Lines(group) + [];
    ContainsWithin(prefix, Lines(group), [], LineOf(q));
  }

  /** Every listed quiz has its line in the grouped listing. */
  lemma BodyMentions(deployed: seq<Deployed>, q: Deployed)
    requires q in Listed(deployed)
    ensures Contains(UrlsBody(deployed), LineOf(q))
  {
    var eng, srb := EnglishGroup(deployed), SerbianGroup(deployed);
    var a, b := Section(EnglishHeading, eng), Section(SerbianHeading, srb);
    var c := if eng == [] && srb == [] then Lines(deployed) else "";
    if eng == [] && srb == [] {
      LinesMention(deployed, q);
    } else if q in eng {
      SectionMentions(EnglishHeading, eng, q);
    } else {
      SectionMentions(SerbianHeading, srb, q);
    }
    ContainsInOneOfThree(a, b, c, LineOf(q));
  }

  /** Every listed quiz has its `Variant …: <edit url>` line in the file. */
  lemma UrlsTextMentions(language: string, deployed: seq<Deployed>, q: Deployed)
    requires q in Listed(deployed)
    ensures Contains(UrlsText(language, deployed), LineOf(q))
  {
    BodyMentions(deployed, q);
    var h := UrlsHeader(language);
    var head := h + "\n" + Repeat('=', |h|) + "\n";
    assert UrlsText(language, deployed) == head + UrlsBody(deployed) + [];
    ContainsWithin(head, UrlsBody(deployed), [], LineOf(q));
  }

  // ---------------------------------------------------------------------
  // deploy_all_quizzes

  datatype UrlFile = UrlFile(path: string, text: string)

  /** The run: whether authentication was attempted, the pattern the deployer
      was called with (if it was), what it deployed, and the URL file written. */
  datatype Deployment = Deployment(authAttempted: bool, deployCall: Option<string>,
                                   deployed: seq<Deployed>, urls: Option<UrlFile>)

  /** `deploy_all_quizzes(pattern, language)`; an empty `language` is `None`. */
  function DeployAll(pattern: string, language: string, found: seq<string>, authenticated: bool,
                     deploy: string -> seq<Deployed>): (r: Deployment)
    ensures r.deployCall.Some? ==> r.deployCall.value == pattern && r.authAttempted && authenticated
    ensures r.deployCall.Some? ==> r.deployed == deploy(pattern)
    ensures r.deployCall.None? ==> r.deployed == [] && r.urls.None?
    ensures r.urls.Some? <==> r.deployed != []
    ensures r.urls.Some? ==> (r.urls.value.path == UrlsPath(Upper(language))
                              && r.urls.value.text == UrlsText(Upper(language), r.deployed))
  {
    var lang := Upper(language);
    var selected := if language != [] then SelectLanguage(found, lang) else found;
    if selected == [] then Deployment(false, None, [], None)
    else if !authenticated then Deployment(true, None, [], None)
    else
      var deployed := deploy(pattern);
      if deployed == [] then Deployment(true, Some(pattern), [], None)
      else Deployment(true, Some(pattern), deployed, Some(UrlFile(UrlsPath(lang), UrlsText(lang, deployed))))
  }

  /** The early exits: when no file of the requested language (or none at all)
      was found, nothing is authenticated, deployed or written. */
  lemma DeployAllEarlyExit(pattern: string, language: string, found: seq<string>, authenticated: bool,
                           deploy: string -> seq<Deployed>)
    ensures var r := DeployAll(pattern, language, found, authenticated, deploy);
      (found == [] || (language != [] && forall f :: f in found ==> !Contains(f, Tag(Upper(language)))))
        ==> !r.authAttempted && r.deployed == [] && r.urls.None?
  {
    if language != [] && forall f :: f in found ==> !Contains(f, Tag(Upper(language))) {
      var s := SelectLanguage(found, Upper(language));
      if s != [] {
        SelectLanguageMembers(found, Upper(language), s[0]);
      }
    }
  }

  /** The deployer sees the pattern, not the filtered list: whenever some file
      of the language was found and authentication succeeds, it is called
      with the original pattern and its answer is the result. */
  lemma DeployAllCallsWithPattern(pattern: string, language: string, found: seq<string>,
                                  deploy: string -> seq<Deployed>, f: string)
    requires f in found && (language != [] ==> Contains(f, Tag(Upper(language))))
    ensures var r := DeployAll(pattern, language, found, true, deploy);
      r.deployCall == Some(pattern) && r.deployed == deploy(pattern)
  {
    if language != [] {
      SelectLanguageMembers(found, Upper(language), f);
    }
  }

  /** Whatever case the language is given in, the URL file is named after it
      in lower case and the header names it in upper case; without a language
      the all-languages file and header are used. */
  lemma UrlsPathOfLanguage(language: string)
    ensures language != [] ==> UrlsPath(Upper(language)) == "/tmp/quiz_urls_" + Lower(language) + ".txt"
    ensures language != [] ==> UrlsHeader(Upper(language)) == "Deployed " + Upper(language) + " Quiz URLs:"
    ensures language == [] ==> UrlsPath(Upper(language)) == "/tmp/quiz_urls_all.txt"
    ensures language == [] ==> UrlsHeader(Upper(language)) == "Deployed Quiz URLs (All Languages):"
  {
    LowerOfUpper(language);
  }

  // ---------------------------------------------------------------------
  // main

  /** The command line: `--pattern`, `--language` (empty when not given) and
      `--list-files`. */
  datatype DeployArgs = DeployArgs(pattern: string, language: string, listFiles: bool)

  /** `main`: listing only reports and succeeds; otherwise the exit code says
      whether anything was deployed. */
  function DeployMain(args: DeployArgs, found: seq<string>, authenticated: bool,
                      deploy: string -> seq<Deployed>): (r: (int, Option<Deployment>))
    ensures args.listFiles ==> r == (0, None)
    ensures !args.listFiles ==> r.1.Some? && r.1.value == DeployAll(args.pattern, args.language, found, authenticated, deploy)
    ensures !args.listFiles ==> (r.0 == 0 <==> r.1.value.deployed != [])
    ensures r.0 == 0 || r.0 == 1
  {
    if args.listFiles then (0, None)
    else
      var d := DeployAll(args.pattern, args.language, found, authenticated, deploy);
      (if d.deployed != [] then 0 else 1, Some(d))
  }
}
