/** Value types shared by the whole model: bytes, Go strings as byte
    sequences, and the optional/fallible wrappers used for oracle inputs. */
module Types {

  /** One byte of a Go string. Go strings are byte sequences, and every
      length and slice in the bot (`len(text) > 20`, `text[:20]`) counts bytes. */
  newtype byte = b: int | 0 <= b < 0x100

  type Bytes = seq<byte>

  datatype Option<+T> = None | Some(value: T)

  /** The outcome of a call the bot cannot see into (an HTTP fetch): the Go
      code only distinguishes "err != nil" from a decoded value. */
  datatype Result<+T> = Ok(value: T) | Err
}
