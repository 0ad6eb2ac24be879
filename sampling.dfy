/** One iteration of the firmware's sampling loop: 64 interleaved raw samples
    of the MQ7 and MQ135 channels are summed and divided by 64, each average
    is converted to millivolts by the ADC calibration, and the MQ7 voltage
    alone is rendered as decimal text and published on `/user/out/adc` with
    QoS 1 (at-least-once, section 4.3.2 of MQTT 3.1.1) and retain 0. */
module Sampling {
  import DecimalText

  /** ADC_AVG_FLT_SAMPLES */
  const SampleCount: int := 64
  /** Largest code of a 12-bit conversion (ADC_WIDTH_BIT_12). */
  const AdcMaxCode: int := 4095
  /** Size of the text buffer the voltage is rendered into. */
  const VoltageTextSize: nat := 30
  const AdcTopic: string := "/user/out/adc"
  const PublishQos: int := 1
  const PublishRetain: int := 0

  const Uint32Range: int := 0x1_0000_0000

  /** Values of C's `uint32_t`. */
  type Uint32 = x: int | 0 <= x < 0x1_0000_0000

  /** The vendor conversion from a raw code to millivolts under the
      characterisation computed at start-up: a uint32_t to uint32_t function
      whose code is not part of this model. */
  type Calibration = Uint32 -> Uint32

  /** One call of the MQTT client's publish: topic, payload (its length
      argument is 0, so the whole NUL-terminated text is sent), QoS, retain. */
  datatype PublishCall = PublishCall(topic: string, payload: string, qos: int, retain: int)

  /** The four values a cycle computes. */
  datatype Readings = Readings(mq7Value: int, mq7Voltage: int, mq135Value: int, mq135Voltage: int)

  /** Sum of a sequence, accumulated from the front as the loop does. */
  function Sum(s: seq<int>): (total: int)
    decreases |s|
  {
    if s == [] then 0 else Sum(s[..|s| - 1]) + s[|s| - 1]
  }

  /** C's `/` on `int`: the quotient truncated toward zero. */
  function CDiv(a: int, b: int): (q: int)
    requires b > 0
    ensures 0 <= a ==> 0 <= q && q * b <= a < q * b + b
    ensures a < 0 ==> q <= 0 && q * b - b < a <= q * b
  {
    if a >= 0 then a / b else -((-a) / b)
  }

  /** The truncated integer mean of the samples. */
  function Mean(samples: seq<int>): (mean: int)
    requires |samples| > 0
  {
    CDiv(Sum(samples), |samples|)
  }

  predicate InAdcRange(samples: seq<int>) {
    forall k :: 0 <= k < |samples| ==> 0 <= samples[k] <= AdcMaxCode
  }

  /** Bounds on each read bound the sum. */
  lemma {:induction false} SumWithin(s: seq<int>, lo: int, hi: int)
    requires forall k :: 0 <= k < |s| ==> lo <= s[k] <= hi
    ensures |s| * lo <= Sum(s) <= |s| * hi
    decreases |s|
  {
    if s != [] {
      SumWithin(s[..|s| - 1], lo, hi);
    }
  }

  /** With 12-bit samples the accumulator of the loop holds at most
      64 * 4095 = 262080 at every step, so the C `int` never overflows. */
  lemma AccumulatorFitsInt(samples: seq<int>, i: nat)
    requires |samples| == SampleCount && InAdcRange(samples) && i <= |samples|
    ensures 0 <= Sum(samples[..i]) <= SampleCount * AdcMaxCode <= DecimalText.IntMax
  {
    SumWithin(samples[..i], 0, AdcMaxCode);
  }

  /** Multiplying by a positive count keeps the order. */
  lemma MulMonotone(x: int, y: int, n: int)
    requires n > 0 && x <= y
    ensures x * n <= y * n
  {
    assert y * n - x * n == (y - x) * n;
  }

  /** The mean of 12-bit samples is a 12-bit code. */
  lemma MeanInAdcRange(samples: seq<int>)
    requires |samples| > 0 && InAdcRange(samples)
    ensures 0 <= Mean(samples) <= AdcMaxCode
  {
    var n := |samples|;
    SumWithin(samples, 0, AdcMaxCode);
    var q := Mean(samples);
    if q > AdcMaxCode {
      MulMonotone(AdcMaxCode + 1, q, n);
      assert false;
    }
  }

  /** Truncating division undoes multiplication by the divisor. */
  lemma CDivOfMultiple(c: int, n: int)
    requires n > 0
    ensures CDiv(n * c, n) == c
  {
    var q := CDiv(n * c, n);
    if c >= 0 {
      MulMonotone(0, c, n);
    } else {
      MulMonotone(c, 0, n);
    }
    if q < c {
      MulMonotone(q + 1, c, n);
      assert false;
    } else if q > c {
      MulMonotone(c + 1, q, n);
      assert false;
    }
  }

  /** A constant signal averages to itself, whatever its sign. */
  lemma MeanOfConstant(samples: seq<int>, c: int)
    requires |samples| > 0
    requires forall k :: 0 <= k < |samples| ==> samples[k] == c
    ensures Mean(samples) == c
  {
    SumWithin(samples, c, c);
    CDivOfMultiple(c, |samples|);
  }

  /** The accumulation loop of the cycle: both sums start at zero, take one
      read of each channel per iteration, and are divided by 64 in place. */
  method MultisampleAverage(mq7Reads: seq<int>, mq135Reads: seq<int>)
    returns (mq7Value: int, mq135Value: int)
    requires |mq7Reads| == SampleCount && |mq135Reads| == SampleCount
    ensures mq7Value == Mean(mq7Reads) && mq135Value == Mean(mq135Reads)
    ensures InAdcRange(mq7Reads) ==> 0 <= mq7Value <= AdcMaxCode
    ensures InAdcRange(mq135Reads) ==> 0 <= mq135Value <= AdcMaxCode
  {
    mq7Value := 0;
    mq135Value := 0;
    for i := 0 to SampleCount
      invariant mq7Value == Sum(mq7Reads[..i])
      invariant mq135Value == Sum(mq135Reads[..i])
    {
      assert mq7Reads[..i + 1][..i] == mq7Reads[..i];
      assert mq135Reads[..i + 1][..i] == mq135Reads[..i];
      mq7Value := mq7Value + mq7Reads[i];
      mq135Value := mq135Value + mq135Reads[i];
    }
    assert mq7Reads[..SampleCount] == mq7Reads;
    assert mq135Reads[..SampleCount] == mq135Reads;
    mq7Value := CDiv(mq7Value, SampleCount);
    mq135Value := CDiv(mq135Value, SampleCount);
    if InAdcRange(mq7Reads) { MeanInAdcRange(mq7Reads); }
    if InAdcRange(mq135Reads) { MeanInAdcRange(mq135Reads); }
  }

  /** Conversion of an `int` argument to `uint32_t`: reduction modulo 2^32. */
  function ToUint32(x: int): (u: Uint32)
    ensures 0 <= x < Uint32Range ==> u == x
  {
    x % Uint32Range
  }

  /** Storing a `uint32_t` in an `int`: values above INT_MAX wrap to negative. */
  function ToInt32(u: Uint32): (v: int)
    ensures DecimalText.IntMin <= v <= DecimalText.IntMax
    ensures u <= DecimalText.IntMax ==> v == u
    ensures ToUint32(v) == u
  {
    if u <= DecimalText.IntMax then u else u - Uint32Range
  }

  /** The voltage stored in the `int` variable for an averaged code. */
  function Voltage(cal: Calibration, value: int): (mv: int)
    ensures DecimalText.IntMin <= mv <= DecimalText.IntMax
    ensures 0 <= value <= AdcMaxCode && cal(value) <= DecimalText.IntMax ==> mv == cal(value)
  {
    ToInt32(cal(ToUint32(value)))
  }

  /** The one publish a cycle makes: it depends on the MQ7 samples only. */
  function CyclePublish(mq7Reads: seq<int>, cal: Calibration): (p: PublishCall)
    requires |mq7Reads| == SampleCount
    ensures p.topic == AdcTopic && p.qos == 1 && p.retain == 0
    ensures |p.payload| <= 11
    ensures DecimalText.WellFormed(p.payload)
    ensures DecimalText.Parse(p.payload) == Voltage(cal, Mean(mq7Reads))
  {
    var mv := Voltage(cal, Mean(mq7Reads));
    DecimalText.RenderRoundTrip(mv);
    DecimalText.RenderLength(mv);
    PublishCall(AdcTopic, DecimalText.Render(mv), PublishQos, PublishRetain)
  }

  /** One iteration of the sampling loop (the diagnostic print and the
      5-second delay are left out).  It returns what it computed and the
      publish calls it made, in order. */
  method SamplingCycle(mq7Reads: seq<int>, mq135Reads: seq<int>, cal: Calibration)
    returns (r: Readings, published: seq<PublishCall>)
    requires |mq7Reads| == SampleCount && |mq135Reads| == SampleCount
    ensures r.mq7Value == Mean(mq7Reads) && r.mq135Value == Mean(mq135Reads)
    ensures r.mq7Voltage == Voltage(cal, r.mq7Value)
    ensures r.mq135Voltage == Voltage(cal, r.mq135Value)
    ensures InAdcRange(mq7Reads) ==> 0 <= r.mq7Value <= AdcMaxCode
    ensures InAdcRange(mq135Reads) ==> 0 <= r.mq135Value <= AdcMaxCode
    ensures published == [CyclePublish(mq7Reads, cal)]
    ensures published[0].payload == DecimalText.Render(r.mq7Voltage)
  {
    var mq7Value, mq135Value := MultisampleAverage(mq7Reads, mq135Reads);
    var mq7Voltage := Voltage(cal, mq7Value);
    var mq135Voltage := Voltage(cal, mq135Value);
    r := Readings(mq7Value, mq7Voltage, mq135Value, mq135Voltage);

    DecimalText.RenderLength(mq7Voltage);
    var text := DecimalText.Bounded(VoltageTextSize, DecimalText.Render(mq7Voltage));
    published := [PublishCall(AdcTopic, text, PublishQos, PublishRetain)];
  }

  /** A flat signal of 100 on MQ7 and 200 on MQ135 averages to exactly 100
      and 200, and the payload is the calibrated voltage of 100. */
  lemma FlatSignalScenario(mq7Reads: seq<int>, mq135Reads: seq<int>, cal: Calibration)
    requires |mq7Reads| == SampleCount && |mq135Reads| == SampleCount
    requires forall k :: 0 <= k < SampleCount ==> mq7Reads[k] == 100 && mq135Reads[k] == 200
    requires cal(100) <= DecimalText.IntMax
    ensures Mean(mq7Reads) == 100 && Mean(mq135Reads) == 200
    ensures DecimalText.Parse(CyclePublish(mq7Reads, cal).payload) == cal(100)
  {
    MeanOfConstant(mq7Reads, 100);
    MeanOfConstant(mq135Reads, 200);
  }
}
