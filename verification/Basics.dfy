/** Bytes, optional values, the error type of `error.rs`, and joining pieces of a byte stream. */
module Basics {

  type Byte = b: int | 0 <= b < 256
  type Bytes = seq<Byte>

  datatype Option<+T> = None | Some(value: T)
  datatype Result<+T, +E> = Ok(value: T) | Err(error: E)

  /** The error variants the modelled code returns. The free-text reasons are kept apart by name,
      not by wording. */
  datatype ChatError =
    | InvalidInvite(why: InviteFault)
    | InviteExpired(timestamp: nat)
    | NonceReused
    | Connection(what: string)
    | WireFault(reason: WireReason)
    | OversizedMessage(size: nat, limit: nat)
    | ShuttingDown

  datatype InviteFault =
    | EmptyToken | BadBase58 | NotUtf8 | FieldCount | NoOnionSuffix | AddressTooShort
    | BadNonceHex | BadNonceLength | BadTimestamp | FarFuture | HandshakeEof

  datatype WireReason =
    | ShortHeader | ZeroLength | Truncated | HeaderRead | PayloadRead | PayloadNotUtf8 | JsonDecode

  /** The stream formed by sending the pieces one after the other. */
  function Concat(pieces: seq<Bytes>): (all: Bytes) {
    if pieces == [] then [] else pieces[0] + Concat(pieces[1..])
  }

  lemma {:induction false} ConcatAppend(xs: seq<Bytes>, ys: seq<Bytes>)
    ensures Concat(xs + ys) == Concat(xs) + Concat(ys)
  {
    if xs == [] {
      assert xs + ys == ys;
    } else {
      assert (xs + ys)[0] == xs[0] && (xs + ys)[1..] == xs[1..] + ys;
      ConcatAppend(xs[1..], ys);
    }
  }

  lemma ConcatSnoc(xs: seq<Bytes>, y: Bytes)
    ensures Concat(xs + [y]) == Concat(xs) + y
  {
    ConcatAppend(xs, [y]);
    assert Concat([y]) == y + Concat([]);
  }
}
