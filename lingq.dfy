/** The vocabulary entry the language-learning service supplies (lingq/vocabulary.go). */
module Lingq {
  /** A term and its familiarity status. */
  datatype Word = Word(term: string, status: int)
}
