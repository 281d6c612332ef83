/** What several modules share. */
module Basics {

  datatype Option<+T> = None | Some(value: T)

  /** The range of a 32-bit unsigned integer. */
  const UINT: nat := 0x1_0000_0000

  function Min(a: nat, b: nat): nat {
    if a < b then a else b
  }

  function Max(a: nat, b: nat): nat {
    if a < b then b else a
  }

  function Elements<T>(s: seq<T>): set<T> {
    set x | x in s
  }

  predicate Distinct<T(==)>(s: seq<T>) {
    forall i, j | 0 <= i < j < |s| :: s[i] != s[j]
  }

  /** Who holds a spin lock: nobody, a process, or a CPU's scheduler. */
  datatype Holder = Nobody | ByProc(p: nat) | ByCpu(c: nat)

  const NUL: char := '\0'

  /** The C string that begins at q, which ends at a NUL or with the buffer. */
  function CString(b: seq<char>, q: nat): (s: string)
    ensures NUL !in s && (q <= |b| ==> |s| <= |b| - q)
    decreases |b| - q
  {
    if q < |b| && b[q] != NUL then [b[q]] + CString(b, q + 1) else ""
  }

  lemma {:induction false} CStringIs(b: seq<char>, q: nat, e: nat)
    requires q <= e <= |b| && NUL !in b[q..e] && (e < |b| ==> b[e] == NUL)
    ensures CString(b, q) == b[q..e]
    decreases e - q
  {
    if q < e {
      assert b[q] == b[q..e][0] && b[q + 1..e] == b[q..e][1..];
      CStringIs(b, q + 1, e);
      assert b[q..e] == [b[q]] + b[q + 1..e];
    }
  }
}
