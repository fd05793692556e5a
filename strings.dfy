/** The parts of Kotlin's `String` that the modelled code relies on:
    `repeat`, `substring` and `hashCode`. */
module Strings {
  import opened Ints
  import opened Results

  /** `s` written `n` times in a row. */
  function Repeat(s: string, n: nat): string {
    if n == 0 then "" else Repeat(s, n - 1) + s
  }

  lemma {:induction false} RepeatLength(s: string, n: nat)
    ensures |Repeat(s, n)| == n * |s|
  {
    if n > 0 {
      RepeatLength(s, n - 1);
    }
  }

  lemma {:induction false} MulAtLeast(a: nat, m: nat)
    requires a >= 1
    ensures a * m >= m
  {
    if a > 1 {
      MulAtLeast(a - 1, m);
      assert a * m == (a - 1) * m + m;
    }
  }

  /** Euclidean remainder after whole multiples of `m`. */
  lemma ModAfterMultiple(k: nat, m: nat, j: nat)
    requires j < m
    ensures (k * m + j) % m == j
  {
    var x := k * m + j;
    var d, r := x / m, x % m;
    assert x == d * m + r;
    var e := d - k;
    assert e * m == j - r by {
      assert d * m - k * m == (d - k) * m;
    }
    if e > 0 {
      MulAtLeast(e, m);
    } else if e < 0 {
      MulAtLeast(-e, m);
    }
  }

  /** Character `i` of the repetition is character `i mod |s|` of `s`. */
  lemma {:induction false} RepeatAt(s: string, n: nat, i: nat)
    requires i < n * |s|
    ensures i < |Repeat(s, n)| && Repeat(s, n)[i] == s[i % |s|]
  {
    RepeatLength(s, n);
    RepeatLength(s, n - 1);
    var prefix := (n - 1) * |s|;
    assert n * |s| == prefix + |s|;
    if i < prefix {
      RepeatAt(s, n - 1, i);
    } else {
      ModAfterMultiple(n - 1, |s|, i - prefix);
    }
  }

  /** Kotlin `s.repeat(n)`: fails with IllegalArgumentException when `n` is
      negative, otherwise `n` copies of `s`. */
  function RepeatChecked(s: string, n: Int32): (r: Result<string>)
    ensures r.Success? <==> n >= 0
    ensures r.Failure? ==> r.error == IllegalArgument
    ensures r.Success? ==> |r.value| == n as int * |s|
    ensures r.Success? ==> forall i :: 0 <= i < |r.value| ==> r.value[i] == s[i % |s|]
  {
    if n < 0 then Failure(IllegalArgument)
    else
      var r := Repeat(s, n as nat);
      RepeatLength(s, n as nat);
      assert forall i :: 0 <= i < |r| ==> r[i] == s[i % |s|] by {
        forall i | 0 <= i < |r| ensures r[i] == s[i % |s|] {
          RepeatAt(s, n as nat, i);
        }
      }
      Success(r)
  }

  /** Kotlin (Java) `s.substring(begin, end)`: the characters from `begin`
      up to but not including `end`; StringIndexOutOfBoundsException when
      `begin < 0`, `end > s.length` or `begin > end`. */
  function Substring(s: string, begin: Int32, end: Int32): (r: Result<string>)
    ensures r.Success? <==> 0 <= begin as int <= end as int <= |s|
    ensures r.Failure? ==> r.error == StringIndexOutOfBounds
    ensures r.Success? ==> |r.value| == end as int - begin as int
    ensures r.Success? ==> forall i :: 0 <= i < |r.value| ==> r.value[i] == s[begin as int + i]
    ensures r.Success? ==> s == s[..begin] + r.value + s[end..]
  {
    if begin < 0 || end as int > |s| || begin > end then Failure(StringIndexOutOfBounds)
    else Success(s[begin..end])
  }

  /** The hash polynomial `s[0]*31^(n-1) + ... + s[n-1]` without wrap-around. */
  function HashPolynomial(s: string): int {
    if s == [] then 0 else 31 * HashPolynomial(s[..|s| - 1]) + s[|s| - 1] as int
  }

  /** Java's `String.hashCode`: `h = 31 * h + c` over the characters, in `Int`
      arithmetic. Wrapping at every step gives the hash polynomial taken
      modulo 2^32, as Java documents it. */
  function Hash(s: string): (h: Int32)
    ensures h == Wrap(HashPolynomial(s))
  {
    if s == [] then 0
    else
      var init, c := s[..|s| - 1], s[|s| - 1] as int;
      var p := HashPolynomial(init);
      var h := Add(Mul(31, Hash(init)), Wrap(c));
      assert h == Wrap(31 * p + c) by {
        assert Hash(init) == Wrap(p);
        WrapSum(31 * Wrap(p) as int, c);
        WrapScaleWrap(31, p, c);
      }
      h
  }
}
