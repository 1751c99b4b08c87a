/** The parts of std::string that the delivery plugins rely on, on a 64-bit
    platform: npos, size_t wrap-around, find_first_of for one character,
    substr with a count that is clamped at the end, and c_str() as seen by
    code that reads up to the first NUL character. */
module StdString {

  /** std::string::npos, the largest size_t value. */
  const NPOS: nat := 0xFFFF_FFFF_FFFF_FFFF

  /** Every std::string is shorter than npos (its max_size()). */
  predicate Fits(s: string)
  {
    |s| < NPOS
  }

  /** `x + 1` on a size_t: npos + 1 wraps round to 0. */
  function SizeInc(x: nat): (r: nat)
    requires x <= NPOS
    ensures x < NPOS ==> r == x + 1
    ensures x == NPOS ==> r == 0
  {
    if x == NPOS then 0 else x + 1
  }

  /** `s.find_first_of(c, from)`: the first position at or after `from`
      holding `c`, or npos when there is none (also when `from` is past the end). */
  function FindFirst(s: string, c: char, from: nat): (r: nat)
    decreases |s| - from
    ensures r != NPOS ==> from <= r < |s| && s[r] == c
  {
    if from >= |s| then NPOS
    else if s[from] == c then from
    else FindFirst(s, c, from + 1)
  }

  /** What FindFirst passes over holds no `c`: nothing before the position
      it finds, nothing at all when it reports npos. */
  lemma {:induction false} FindFirstSkips(s: string, c: char, from: nat)
    ensures forall k | from <= k < |s| && k < FindFirst(s, c, from) :: s[k] != c
    decreases |s| - from
  {
    if from < |s| && s[from] != c {
      FindFirstSkips(s, c, from + 1);
    }
  }

  /** The position of the first `c` at or after `from` is what the scan finds. */
  lemma {:induction false} FindFirstIs(s: string, c: char, from: nat, k: nat)
    requires Fits(s) && from <= k < |s| && s[k] == c
    requires forall j | from <= j < k :: s[j] != c
    ensures FindFirst(s, c, from) == k
    decreases k - from
  {
    if from < k {
      FindFirstIs(s, c, from + 1, k);
    }
  }

  /** `s.substr(pos, count)`: at most `count` characters starting at `pos`;
      a count that runs past the end stops at the end. */
  function Substr(s: string, pos: nat, count: nat): (r: string)
    requires pos <= |s|
    ensures |r| == if count < |s| - pos then count else |s| - pos
    ensures forall k | 0 <= k < |r| :: r[k] == s[pos + k]
    decreases |s| - pos
  {
    if count == 0 || pos == |s| then [] else [s[pos]] + Substr(s, pos + 1, count - 1)
  }

  /** A substring from `pos` whose count reaches the end is the rest of the string. */
  lemma {:induction false} SubstrRest(s: string, pos: nat, count: nat)
    requires pos <= |s| && |s| - pos <= count
    ensures Substr(s, pos, count) == s[pos..]
  {
  }

  /** A string is cut at position `k` into what precedes it, the character
      there and what follows it. */
  lemma {:induction false} SubstrAround(s: string, k: nat)
    requires Fits(s) && k < |s|
    ensures s == Substr(s, 0, k) + [s[k]] + Substr(s, k + 1, NPOS)
  {
    assert Substr(s, 0, k) == s[..k];
    SubstrRest(s, k + 1, NPOS);
    assert s == s[..k] + [s[k]] + s[k + 1..];
  }

  /** The text seen through `s.c_str()` by code that stops at the first NUL. */
  function CStr(s: string): (r: string)
    ensures |r| <= |s| && r == s[..|r|]
    ensures '\0' !in r
    ensures |r| < |s| ==> s[|r|] == '\0'
  {
    if s == [] || s[0] == '\0' then [] else [s[0]] + CStr(s[1..])
  }

  /** The C string ends at the first NUL. */
  lemma {:induction false} CStrStops(s: string, k: nat)
    requires k < |s| && s[k] == '\0'
    requires forall j | 0 <= j < k :: s[j] != '\0'
    ensures CStr(s) == s[..k]
  {
  }

  /** A string without NUL is seen whole through its C string. */
  lemma {:induction false} CStrWithoutNul(s: string)
    requires '\0' !in s
    ensures CStr(s) == s
  {
  }

  /** Number of occurrences of `c` in `s` at or after position `i`. */
  function CountFrom(s: string, c: char, i: nat): (n: nat)
    decreases |s| - i
  {
    if i >= |s| then 0 else (if s[i] == c then 1 else 0) + CountFrom(s, c, i + 1)
  }

  /** A stretch without `c` does not change the count from its start. */
  lemma {:induction false} CountSkip(s: string, c: char, a: nat, b: nat)
    requires a <= b <= |s|
    requires forall k | a <= k < b :: s[k] != c
    ensures CountFrom(s, c, a) == CountFrom(s, c, b)
    decreases b - a
  {
    if a < b {
      CountSkip(s, c, a + 1, b);
    }
  }

  /** The scan for `c` from `i` finds nothing exactly when no `c` is counted there. */
  lemma {:induction false} CountFindFirst(s: string, c: char, i: nat)
    requires Fits(s) && i <= |s|
    ensures FindFirst(s, c, i) == NPOS <==> CountFrom(s, c, i) == 0
    decreases |s| - i
  {
    if i < |s| {
      CountFindFirst(s, c, i + 1);
    }
  }

  /** The `c` that the scan from `i` finds is one of those counted from `i`,
      and the others lie after it. */
  lemma {:induction false} CountAtFound(s: string, c: char, i: nat)
    requires Fits(s) && i <= |s| && FindFirst(s, c, i) != NPOS
    ensures CountFrom(s, c, i) == 1 + CountFrom(s, c, FindFirst(s, c, i) + 1)
  {
    FindFirstSkips(s, c, i);
    CountSkip(s, c, i, FindFirst(s, c, i));
  }
}
