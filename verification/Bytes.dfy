/** Octets, written as characters so that protocol text reads as text. */
module Bytes {
  type byte = c: char | c as int < 256 witness 'a'

  type bytes = seq<byte>
}
