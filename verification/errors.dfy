/** The exceptions the quiz generator can raise, and the Python class each one
    belongs to (the variant loops decide what to skip by class). */
module QuizErrors {

  datatype Error =
    | QuestionFileMissing(path: string)                                   // FileNotFoundError
    | InvalidJson(path: string)                                           // ValueError (wrapped JSONDecodeError)
    | NotAQuestionList(path: string)                                      // ValueError
    | RecordNotADict                                                      // TypeError from `field in record` / `record['answers']`
    | InsufficientQuestions(path: string, available: nat, required: int)  // ValueError
    | TooManyRequested(requested: int, available: nat)                    // ValueError
    | SampleSizeNegative(requested: int)                                  // ValueError from random.sample
    | CorrectAnswerMissing                                                // ValueError from list.index
    | TextNotAString                                                      // AttributeError from `.replace`
    | UnsupportedLanguage(language: string)                               // ValueError
    | WriteFailed(path: string)                                           // OSError from save_script

  datatype ExceptionClass = ValueError | TypeError | AttributeError | OSError | RuntimeError | KeyboardInterrupt

  function ClassOf(e: Error): (c: ExceptionClass)
    ensures c != RuntimeError && c != KeyboardInterrupt
  {
    match e
    case QuestionFileMissing(_) => OSError
    case WriteFailed(_) => OSError
    case RecordNotADict => TypeError
    case TextNotAString => AttributeError
    case _ => ValueError
  }
}
