/**
 * The outbound message that data_handler of src/main.c writes for one batch
 * of accelerometer readings: key 0 carries the command tag, and axis `a`
 * of sample `s` goes to key NUMBER_PARAMETERS * s + a + 1.
 */
module Message {

  const KEY_COMMAND: nat := 0
  const COMMAND_DATA: int := 1
  const NUMBER_PARAMETERS: nat := 3

  /** One raw accelerometer reading; only the three axes are sent. */
  datatype AccelData = AccelData(x: int, y: int, z: int)

  /** One key/value entry written into the outbox dictionary. */
  datatype Tuplet = Tuplet(key: nat, value: int)

  /** The reading of axis 0 (x), 1 (y) or 2 (z). */
  function Axis(d: AccelData, axis: nat): int
    requires axis < NUMBER_PARAMETERS
  {
    if axis == 0 then d.x else if axis == 1 then d.y else d.z
  }

  /**
   * The key of one axis of one sample. It is never the command key, and
   * SlotOfKey recovers the sample and the axis from it.
   */
  function SampleKey(sample: nat, axis: nat): (k: nat)
    requires axis < NUMBER_PARAMETERS
    ensures k != KEY_COMMAND
    ensures SlotOfKey(k) == (sample, axis)
  {
    NUMBER_PARAMETERS * sample + axis + 1
  }

  /** The (sample, axis) a non-command key belongs to. */
  function SlotOfKey(k: nat): (slot: (nat, nat))
    requires k != KEY_COMMAND
    ensures slot.1 < NUMBER_PARAMETERS
  {
    ((k - 1) / NUMBER_PARAMETERS, (k - 1) % NUMBER_PARAMETERS)
  }

  /** Every non-command key is the key of exactly the slot SlotOfKey names. */
  lemma SlotOfKeyRoundTrip(k: nat)
    requires k != KEY_COMMAND
    ensures SampleKey(SlotOfKey(k).0, SlotOfKey(k).1) == k
  {
  }

  /** Distinct (sample, axis) pairs get distinct keys. */
  lemma SampleKeyInjective(s1: nat, a1: nat, s2: nat, a2: nat)
    requires a1 < NUMBER_PARAMETERS && a2 < NUMBER_PARAMETERS
    requires SampleKey(s1, a1) == SampleKey(s2, a2)
    ensures s1 == s2 && a1 == a2
  {
    assert SlotOfKey(SampleKey(s1, a1)) == (s1, a1);
  }

  /** The three entries of one sample, x then y then z. */
  function SampleTuplets(d: AccelData, sample: nat): seq<Tuplet>
  {
    [Tuplet(SampleKey(sample, 0), d.x), Tuplet(SampleKey(sample, 1), d.y), Tuplet(SampleKey(sample, 2), d.z)]
  }

  /** The entries of all samples, in sample order. */
  function SamplesLayout(data: seq<AccelData>): (r: seq<Tuplet>)
    ensures |r| == NUMBER_PARAMETERS * |data|
  {
    if |data| == 0 then []
    else SamplesLayout(data[..|data| - 1]) + SampleTuplets(data[|data| - 1], |data| - 1)
  }

  /** The whole message: the command entry first, then every sample. */
  function Layout(data: seq<AccelData>): (r: seq<Tuplet>)
    ensures |r| == 1 + NUMBER_PARAMETERS * |data|
    ensures r[0] == Tuplet(KEY_COMMAND, COMMAND_DATA)
  {
    [Tuplet(KEY_COMMAND, COMMAND_DATA)] + SamplesLayout(data)
  }

  /**
   * The sample entries are three per sample, the entry at position p has key
   * p + 1, and its value is the unchanged reading of the axis that key names.
   */
  lemma {:induction false} SamplesLayoutAt(data: seq<AccelData>)
    ensures |SamplesLayout(data)| == NUMBER_PARAMETERS * |data|
    ensures forall p :: 0 <= p < |SamplesLayout(data)| ==>
      SamplesLayout(data)[p].key == p + 1 &&
      SamplesLayout(data)[p].value == Axis(data[p / NUMBER_PARAMETERS], p % NUMBER_PARAMETERS)
  {
    if |data| > 0 {
      var init := data[..|data| - 1];
      SamplesLayoutAt(init);
      var l := SamplesLayout(data);
      forall p | 0 <= p < |l|
        ensures l[p].key == p + 1 && l[p].value == Axis(data[p / NUMBER_PARAMETERS], p % NUMBER_PARAMETERS)
      {
        if p < NUMBER_PARAMETERS * |init| {
          assert l[p] == SamplesLayout(init)[p];
          assert data[p / NUMBER_PARAMETERS] == init[p / NUMBER_PARAMETERS];
        } else {
          var a := p - NUMBER_PARAMETERS * |init|;
          assert p / NUMBER_PARAMETERS == |init| && p % NUMBER_PARAMETERS == a;
          assert l[p] == SampleTuplets(data[|init|], |init|)[a];
        }
      }
    }
  }

  /**
   * The message holds 1 + 3 * |data| entries; key 0 comes first with the
   * data command; every later entry's key equals its position, so keys
   * strictly increase and lie in 1 .. 3 * |data|; and axis `a` of sample `s`
   * sits under SampleKey(s, a) with its reading unchanged.
   */
  lemma LayoutShape(data: seq<AccelData>)
    ensures |Layout(data)| == 1 + NUMBER_PARAMETERS * |data|
    ensures Layout(data)[0] == Tuplet(KEY_COMMAND, COMMAND_DATA)
    ensures forall p :: 0 <= p < |Layout(data)| ==> Layout(data)[p].key == p
    ensures forall p, q :: 0 <= p < q < |Layout(data)| ==> Layout(data)[p].key < Layout(data)[q].key
    ensures forall s, a :: 0 <= s < |data| && 0 <= a < NUMBER_PARAMETERS ==>
      SampleKey(s, a) < |Layout(data)| && Layout(data)[SampleKey(s, a)] == Tuplet(SampleKey(s, a), Axis(data[s], a))
  {
    SamplesLayoutAt(data);
    var m := Layout(data);
    forall p | 0 <= p < |m| ensures m[p].key == p {
      if p > 0 {
        assert m[p] == SamplesLayout(data)[p - 1];
      }
    }
    forall s, a | 0 <= s < |data| && 0 <= a < NUMBER_PARAMETERS
      ensures SampleKey(s, a) < |m| && m[SampleKey(s, a)] == Tuplet(SampleKey(s, a), Axis(data[s], a))
    {
      var p := NUMBER_PARAMETERS * s + a;
      assert p / NUMBER_PARAMETERS == s && p % NUMBER_PARAMETERS == a;
      assert m[p + 1] == SamplesLayout(data)[p];
    }
  }

  /**
   * data_handler: writes the command entry, then for each of the first
   * `numSamples` readings its x, y and z entries, in that order.
   */
  method DataHandler(data: seq<AccelData>, numSamples: nat) returns (msg: seq<Tuplet>)
    requires numSamples <= |data|
    ensures msg == Layout(data[..numSamples])
    ensures |msg| == 1 + NUMBER_PARAMETERS * numSamples
    ensures forall p :: 0 <= p < |msg| ==> msg[p].key == p
  {
    msg := [Tuplet(KEY_COMMAND, COMMAND_DATA)];
    var sample := 0;
    while sample < numSamples
      invariant 0 <= sample <= numSamples
      invariant msg == Layout(data[..sample])
    {
      msg := msg + [Tuplet(NUMBER_PARAMETERS * sample + 0 + 1, data[sample].x)];
      msg := msg + [Tuplet(NUMBER_PARAMETERS * sample + 1 + 1, data[sample].y)];
      msg := msg + [Tuplet(NUMBER_PARAMETERS * sample + 2 + 1, data[sample].z)];
      assert data[..sample + 1][..sample] == data[..sample];
      sample := sample + 1;
    }
    LayoutShape(data[..numSamples]);
  }
}
