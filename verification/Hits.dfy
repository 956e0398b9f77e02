/** Retrieved chunks, as the benchmark's arms return them (bench/contextbench/types.go). */
module Hits {
  datatype Hit = Hit(file: string, first: int, last: int, text: string, tokens: int)

  /** A hit's token count, counted from its text when it has none. */
  function HitTokens(h: Hit, count: string -> nat): int {
    if h.tokens <= 0 && h.text != "" then count(h.text) else h.tokens
  }
}
