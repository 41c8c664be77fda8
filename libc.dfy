/**
 * The libc string routines the builder relies on, stated by what they
 * compute.  A C pointer to characters is modelled by `CStr`: either NULL
 * or the sequence of characters readable from the pointer onwards.
 */
module LibC {

  /** The C string terminator. */
  const NUL: char := '\0'

  /** A `const char *` argument: NULL, or the memory it points into. */
  datatype CStr = Null | Ptr(mem: seq<char>)

  /** The memory holds a terminator somewhere, so `strlen` stays in bounds. */
  predicate Terminated(mem: seq<char>) {
    NUL in mem
  }

  /** `strnlen(mem, limit)` stays in bounds: it meets a terminator or has `limit` readable bytes. */
  predicate ReadableUpTo(mem: seq<char>, limit: nat) {
    limit <= |mem| || NUL in mem
  }

  function Min(a: nat, b: nat): nat {
    if a <= b then a else b
  }

  /** `strlen`: the index of the first terminator. */
  function Strlen(mem: seq<char>): (n: nat)
    requires Terminated(mem)
    ensures n < |mem| && mem[n] == NUL
    ensures forall i :: 0 <= i < n ==> mem[i] != NUL
  {
    if mem[0] == NUL then 0 else 1 + Strlen(mem[1..])
  }

  /** `strnlen`: the index of the first terminator, but at most `limit`. */
  function Strnlen(mem: seq<char>, limit: nat): (n: nat)
    requires ReadableUpTo(mem, limit)
    ensures n <= limit && n <= |mem|
    ensures forall i :: 0 <= i < n ==> mem[i] != NUL
    ensures n == limit || mem[n] == NUL
  {
    if limit == 0 || mem[0] == NUL then 0 else 1 + Strnlen(mem[1..], limit - 1)
  }

  /** A string literal as C stores it: its characters, then the terminator. */
  function Literal(s: string): (mem: seq<char>)
    ensures Terminated(mem)
  {
    s + [NUL]
  }

  /** `strlen` of a literal is the literal's length. */
  lemma {:induction false} StrlenLiteral(s: string)
    requires NUL !in s
    ensures Strlen(Literal(s)) == |s|
    ensures Literal(s)[..Strlen(Literal(s))] == s
  {
    if s != [] {
      assert Literal(s)[1..] == Literal(s[1..]);
      StrlenLiteral(s[1..]);
    }
  }

  /** On terminated memory, `strnlen` is `strlen` cut at the limit. */
  lemma {:induction false} StrnlenIsMinStrlen(mem: seq<char>, limit: nat)
    requires Terminated(mem)
    ensures Strnlen(mem, limit) == Min(Strlen(mem), limit)
  {
    if limit != 0 && mem[0] != NUL {
      assert NUL in mem[1..] by {
        var k :| 0 <= k < |mem| && mem[k] == NUL;
        assert mem[1..][k - 1] == NUL;
      }
      StrnlenIsMinStrlen(mem[1..], limit - 1);
    }
  }
}
