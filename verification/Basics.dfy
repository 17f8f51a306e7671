/** Vocabulary shared by every component: outcomes, octet strings, digests, signature schemes. */
module Basics {
  datatype Option<+T> = None | Some(value: T)

  /** Why a check raised. */
  datatype Error =
    | Missing      // a required field is absent or blank
    | Malformed    // a field does not have its canonical shape
    | Unsupported  // a version, kind or algorithm other than the supported one
    | OutOfRange   // a number outside its bounds
    | Mismatch     // two fields, or a field and a recomputed value, disagree
    | TooShort
    | TooLong
    | Untrusted    // a key outside the configured set
    | Expired
    | BadSignature

  /** A Python call that either returns or raises. */
  datatype Result<+T> = Ok(value: T) | Err(error: Error) {
    predicate IsFailure() {
      Err?
    }

    function PropagateFailure<U>(): Result<U>
      requires Err?
    {
      Err(error)
    }

    function Extract(): T
      requires Ok?
    {
      value
    }
  }

  /** The outcome of a check that returns nothing. */
  datatype Check = Pass | Fail(error: Error) {
    predicate IsFailure() {
      Fail?
    }

    function PropagateFailure<U>(): Result<U>
      requires Fail?
    {
      Err(error)
    }
  }

  function Require(condition: bool, error: Error): Check {
    if condition then Pass else Fail(error)
  }

  type Byte = b: int | 0 <= b < 256
  type Bytes = seq<Byte>

  /** The output of a 32-byte hash. */
  type Digest = d: Bytes | |d| == 32 witness seq(32, _ => 0)

  /** A hash function is any total function into 32 bytes: nothing is assumed about collisions. */
  type Hash = Bytes -> Digest

  /** Two distinct inputs with the same hash. */
  predicate Collision(h: Hash, x: Bytes, y: Bytes) {
    x != y && h(x) == h(y)
  }

  type Signature = s: Bytes | |s| == 64 witness seq(64, _ => 0)

  /** A detached signature scheme over 32-byte seeds. */
  datatype SignatureScheme = SignatureScheme(
    publicKey: Bytes -> Digest,
    sign: (Bytes, Bytes) -> Signature,
    verify: (Bytes, Bytes, Bytes) -> bool)
  {
    /** The one fact assumed of Ed25519: what a seed signs, its public key verifies. */
    ghost predicate Correct() {
      forall seed: Bytes, message: Bytes ::
        |seed| == 32 ==> verify(publicKey(seed), sign(seed, message), message)
    }
  }

  // ----- Sequence facts, stated once so that proofs need not unfold extensional equality

  lemma HeadTail<T>(s: seq<T>)
    requires s != []
    ensures s == [s[0]] + s[1..]
  {
  }

  lemma ConsParts<T>(x: T, s: seq<T>)
    ensures ([x] + s)[0] == x && ([x] + s)[1..] == s
  {
  }

  lemma CancelPrefix<T>(p: seq<T>, a: seq<T>, b: seq<T>)
    requires p + a == p + b
    ensures a == b
  {
    assert a == (p + a)[|p|..] && b == (p + b)[|p|..];
  }

  lemma Assoc<T>(a: seq<T>, b: seq<T>, c: seq<T>)
    ensures a + b + c == a + (b + c)
  {
  }
}
