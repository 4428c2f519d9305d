/** The control characters that begin and end escape sequences. */
module Ansi {
  const ESC: char := '\U{1b}'
  const BEL: char := '\U{07}'
}
