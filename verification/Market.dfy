/** Values shared by every part of the model: prices are exact reals and a time
    is a whole number of seconds since the epoch. */
module Market {

  datatype Option<+T> = None | Some(value: T)

  datatype Result<+T, +E> = Ok(value: T) | Err(error: E)

  datatype Side = Long | Short {
    function Flip(): Side {
      if Long? then Short else Long
    }
  }

  /** One OHLCV candle; `time` is its opening time. */
  datatype Bar = Bar(time: int, open: real, high: real, low: real, close: real, volume: real)

  function Max(a: real, b: real): real {
    if a < b then b else a
  }

  function Min(a: real, b: real): real {
    if b < a then b else a
  }

  function Abs(a: real): real {
    if a < 0.0 then -a else a
  }

  function Sum(values: seq<real>): real {
    if values == [] then 0.0 else Sum(values[..|values| - 1]) + values[|values| - 1]
  }

  function Closes(bars: seq<Bar>): (closes: seq<real>)
    ensures |closes| == |bars|
    ensures forall i :: 0 <= i < |bars| ==> closes[i] == bars[i].close
  {
    seq(|bars|, i requires 0 <= i < |bars| => bars[i].close)
  }

  /** The times of a list of bars. */
  function Times(bars: seq<Bar>): (times: seq<int>)
    ensures |times| == |bars|
    ensures forall i :: 0 <= i < |bars| ==> times[i] == bars[i].time
  {
    seq(|bars|, i requires 0 <= i < |bars| => bars[i].time)
  }

  ghost predicate TimeOrdered(bars: seq<Bar>) {
    forall i, j :: 0 <= i < j < |bars| ==> bars[i].time <= bars[j].time
  }

  ghost predicate StrictlyTimeOrdered(bars: seq<Bar>) {
    forall i, j :: 0 <= i < j < |bars| ==> bars[i].time < bars[j].time
  }

  lemma QuotientAtLeast(part: real, whole: real, bound: real)
    requires whole > 0.0
    ensures part / whole >= bound <==> part >= bound * whole
  {
    var quotient := part / whole;
    assert quotient * whole == part;
    assert (quotient - bound) * whole == part - bound * whole;
  }

  lemma {:induction false} SumOfLevel(values: seq<real>, level: real)
    requires forall i :: 0 <= i < |values| ==> values[i] == level
    ensures Sum(values) == |values| as real * level
  {
    if values != [] {
      SumOfLevel(values[..|values| - 1], level);
    }
  }

  lemma {:induction false} SumOfConcat(a: seq<real>, b: seq<real>)
    ensures Sum(a + b) == Sum(a) + Sum(b)
  {
    if b == [] {
      assert a + b == a;
    } else {
      SumOfConcat(a, b[..|b| - 1]);
      assert (a + b)[..|a + b| - 1] == a + b[..|b| - 1];
    }
  }
}
