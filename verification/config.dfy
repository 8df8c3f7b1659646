/** `QuizConfig`: the settings one quiz is generated with. */
module QuizSettings {
  import opened Text

  datatype QuizConfig = QuizConfig(
    title: string,
    description: string,
    questionCount: int,
    pointsPerQuestion: int,
    collectEmail: bool,
    limitResponses: bool,
    showLinkToRespondAgain: bool,
    confirmationMessage: string,
    language: string)

  const DefaultTitle: string := "AI Knowledge Quiz"
  const DefaultDescription: string := "Test your knowledge about Artificial Intelligence. Choose the best answer."
  const DefaultConfirmation: string :=
    "Thanks for taking the quiz! Your results will be displayed immediately after submission. You need 70% or higher to pass."

  /** The constructor: every setting is stored as given except the language,
      which is stored upper-cased. */
  function NewQuizConfig(title: string, description: string, questionCount: int, pointsPerQuestion: int,
                         collectEmail: bool, limitResponses: bool, showLinkToRespondAgain: bool,
                         confirmationMessage: string, language: string): (c: QuizConfig)
    ensures c.title == title && c.description == description && c.confirmationMessage == confirmationMessage
    ensures c.questionCount == questionCount && c.pointsPerQuestion == pointsPerQuestion
    ensures c.collectEmail == collectEmail && c.limitResponses == limitResponses
    ensures c.showLinkToRespondAgain == showLinkToRespondAgain
    ensures c.language == Upper(language)
    ensures |c.language| == |language|
    ensures forall i :: 0 <= i < |language| ==> !IsLower(c.language[i])
    ensures forall i :: 0 <= i < |language| ==> !IsLetter(language[i]) ==> c.language[i] == language[i]
  {
    QuizConfig(title, description, questionCount, pointsPerQuestion, collectEmail, limitResponses,
               showLinkToRespondAgain, confirmationMessage, Upper(language))
  }

  /** `QuizConfig()` with every default. */
  function DefaultConfig(): (c: QuizConfig)
    ensures c.language == "ENG" && c.questionCount == 10 && c.pointsPerQuestion == 1
  {
    assert Upper("ENG") == "ENG";
    NewQuizConfig(DefaultTitle, DefaultDescription, 10, 1, true, true, false, DefaultConfirmation, "ENG")
  }

  /** Re-normalising a configuration's language changes nothing. */
  lemma NormaliseIdempotent(c: QuizConfig)
    ensures var d := NewQuizConfig(c.title, c.description, c.questionCount, c.pointsPerQuestion, c.collectEmail,
                                   c.limitResponses, c.showLinkToRespondAgain, c.confirmationMessage, c.language);
      NewQuizConfig(d.title, d.description, d.questionCount, d.pointsPerQuestion, d.collectEmail,
                    d.limitResponses, d.showLinkToRespondAgain, d.confirmationMessage, d.language) == d
  {
    UpperIdempotent(c.language);
  }
}
