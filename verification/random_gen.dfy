/** Random helpers (pkg/utils/random_gen.go). The pseudo-random source is an
    oracle: `draws` lists, in order, the values the source hands out. */
module RandomGen {
  import opened Base

  const Alphabet: string := "abcdefghijklmnopqrstuvwxyz"

  lemma AlphabetIsLowercase()
    ensures |Alphabet| == 26
    ensures forall k :: 0 <= k < |Alphabet| ==> 'a' <= Alphabet[k] <= 'z'
  {
  }

  /** RandomStr(n): one letter per loop step, the i-th letter picked by the
      i-th draw of rand.Intn(26). Returns the string and the draws left over. */
  method RandomStr(n: int, draws: seq<int>) returns (s: string, rest: seq<int>)
    requires n <= |draws|
    requires forall i :: 0 <= i < |draws| ==> 0 <= draws[i] < |Alphabet|
    ensures |s| == if n <= 0 then 0 else n
    ensures forall i :: 0 <= i < |s| ==> s[i] == Alphabet[draws[i]]
    ensures forall i :: 0 <= i < |s| ==> 'a' <= s[i] <= 'z'
    ensures rest == draws[|s|..]
  {
    AlphabetIsLowercase();
    s := [];
    var i := 0;
    while i < n
      invariant 0 <= i && (n > 0 ==> i <= n) && (n <= 0 ==> i == 0)
      invariant |s| == i
      invariant forall j :: 0 <= j < i ==> s[j] == Alphabet[draws[j]]
      invariant forall j :: 0 <= j < i ==> 'a' <= s[j] <= 'z'
    {
      s := s + [Alphabet[draws[i]]];
      i := i + 1;
    }
    rest := draws[i..];
  }

  /** rand.Int63n panics when its bound is not positive. */
  datatype RandError = NonPositiveBound

  /** RandomInt(min, max): min + rand.Int63n(max-min+1), all in int64
      arithmetic. `draw` is the value rand.Int63n returns. */
  function RandomInt(min: int, max: int, draw: int): (r: Result<int, RandError>)
    requires IsInt64(min) && IsInt64(max)
    requires Wrap64(max - min + 1) > 0 ==> 0 <= draw < Wrap64(max - min + 1)
    ensures r.Err? <==> Wrap64(max - min + 1) <= 0
    ensures r.Ok? ==> IsInt64(r.value)
  {
    var bound := Wrap64(max - min + 1);
    if bound <= 0 then Err(NonPositiveBound) else Ok(Wrap64(min + draw))
  }

  /** With ordered bounds the call succeeds exactly when max-min+1 fits in an
      int64, and then the result lies between the bounds. */
  lemma RandomIntInRange(min: int, max: int, draw: int)
    requires IsInt64(min) && IsInt64(max) && min <= max
    requires Wrap64(max - min + 1) > 0 ==> 0 <= draw < Wrap64(max - min + 1)
    ensures RandomInt(min, max, draw).Ok? <==> max - min + 1 <= MaxInt64
    ensures RandomInt(min, max, draw).Ok? ==> min <= RandomInt(min, max, draw).value <= max
  {
    if max - min + 1 > MaxInt64 {
      assert Wrap64(max - min + 1) == max - min + 1 - TwoTo64;
    }
  }

  /** Reversed bounds far enough apart do not make the call panic: the
      subtraction wraps around to a positive bound. */
  lemma RandomIntReversedBounds()
    ensures RandomInt(MaxInt64, MinInt64, 1) == Ok(MinInt64)
  {
    assert Wrap64(MinInt64 - MaxInt64 + 1) == 2;
    assert Wrap64(MaxInt64 + 1) == MinInt64;
  }
}
