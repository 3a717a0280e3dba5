/** Octet strings, network byte order and the slicing rule of the source language. */
module Octets {

  type Octet = x: int | 0 <= x < 256
  type Octets = seq<Octet>

  /** A 16-octet string: an authenticator, an MD5 digest or an HMAC-MD5 digest. */
  type Digest = d: Octets | |d| == 16 witness seq(16, _ => 0)

  const ZERO_DIGEST: Digest := seq(16, _ => 0)

  datatype Option<+T> = None | Some(value: T)
  datatype Result<+T, +E> = Ok(value: T) | Err(error: E)

  function Pack16(n: nat): (r: Octets)
    requires n < 0x1_0000
    ensures |r| == 2 && Unpack16(r) == n
  {
    [n / 256, n % 256]
  }

  /** The high octet first. */
  lemma Pack16Octets(n: nat)
    requires n < 0x1_0000
    ensures Pack16(n)[0] == n / 256 && Pack16(n)[1] == n % 256
  {
  }

  function Unpack16(s: Octets): (n: nat)
    requires |s| == 2
    ensures n < 0x1_0000
  {
    256 * (s[0] as int) + s[1]
  }

  /** `s[lo:hi]`: bounds beyond the end are clipped and an inverted range is empty. */
  function Slice<T>(s: seq<T>, lo: nat, hi: nat): (r: seq<T>)
    ensures |r| <= |s|
    ensures lo <= hi <= |s| ==> r == s[lo..hi]
  {
    var end := if hi <= |s| then hi else |s|;
    if lo <= end then s[lo..end] else []
  }

  /** Overwrites `patch` at `at`, as far as it fits. */
  function Patch(s: Octets, at: nat, patch: Octets): (r: Octets)
    ensures |r| == |s|
    ensures forall i :: 0 <= i < |s| && !(at <= i < at + |patch|) ==> r[i] == s[i]
    ensures forall i :: 0 <= i < |patch| && at + i < |s| ==> r[at + i] == patch[i]
  {
    seq(|s|, i requires 0 <= i < |s| => if at <= i < at + |patch| then patch[i - at] else s[i])
  }

  function Flatten<T>(parts: seq<seq<T>>): (r: seq<T>)
  {
    if parts == [] then [] else parts[0] + Flatten(parts[1..])
  }

  lemma SmallerSet<T>(a: set<T>, b: set<T>)
    requires a <= b
    ensures |a| <= |b| && (|a| == |b| ==> a == b)
  {
    if a != b {
      var x :| x in b && x !in a;
      SmallerSet(a, b - {x});
    }
  }

  lemma Assoc<T>(a: seq<T>, b: seq<T>, c: seq<T>)
    ensures (a + b) + c == a + (b + c)
  {
  }

  lemma Units<T>(a: seq<T>)
    ensures [] + a == a && a + [] == a
  {
  }

  lemma SplitAround<T>(s: seq<T>, k: nat)
    requires k < |s|
    ensures s[..k] + [s[k]] + s[k + 1..] == s && s[..k + 1] == s[..k] + [s[k]]
    ensures s[..k + 1] + s[k + 1..] == s
  {
  }

  lemma Snoc<T>(s: seq<T>, x: T)
    ensures |s + [x]| == |s| + 1 && (s + [x])[..|s|] == s && (s + [x])[|s|] == x
    ensures s != [] ==> (s + [x])[|s| - 1] == s[|s| - 1]
  {
  }

  lemma HeadAndTail<T>(s: seq<T>)
    requires s != []
    ensures [s[0]] + s[1..] == s
  {
  }

  lemma AppendSnoc<T>(a: seq<T>, b: seq<T>)
    requires b != []
    ensures a + b == (a + b[..|b| - 1]) + [b[|b| - 1]]
  {
  }

  lemma SuffixHead<T>(s: seq<T>, k: nat)
    requires k < |s|
    ensures s[k..] != [] && s[k..][0] == s[k] && s[k..][1..] == s[k + 1..]
  {
  }

  lemma TailOfAppend<T>(a: seq<T>, b: seq<T>)
    requires a != []
    ensures (a + b)[1..] == a[1..] + b && (a + b)[0] == a[0]
  {
  }

  lemma {:induction false} FlattenAppend<T>(a: seq<seq<T>>, b: seq<seq<T>>)
    ensures Flatten(a + b) == Flatten(a) + Flatten(b)
  {
    if a == [] {
      Units(b);
    } else {
      TailOfAppend(a, b);
      FlattenAppend(a[1..], b);
      Assoc(a[0], Flatten(a[1..]), Flatten(b));
    }
  }
}
