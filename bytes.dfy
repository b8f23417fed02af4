/**
 * Go strings are immutable sequences of bytes with no encoding attached.
 * A byte is modelled as a character below 256, so that ASCII literals such
 * as "failure reason" can be written as they appear in the Go code while
 * binary data (an info hash) stays a plain sequence of octets.
 */
module ByteStrings {

  type byte = c: char | c as int < 256 witness '\0'

  type Bytes = seq<byte>
}
