/**
 * The sensor combinators of `src/sensor/logic.rs`. A sensor is an iterator; the model's source
 * is a class holding what its successive `next` calls return (an exhausted iterator returns
 * `None`) and how often it was polled, so that "not advanced" can be stated. A preprocessor
 * records the inputs it was run on.
 */
module SensorLogic {
  import opened Wrappers

  /** The outcome of the next poll of a source with these remaining items. */
  function NextItem<T>(items: seq<Option<T>>): Option<T> {
    if |items| == 0 then None else items[0]
  }

  function AfterItem<T>(items: seq<Option<T>>): seq<Option<T>> {
    if |items| == 0 then [] else items[1..]
  }

  class Source<T> {
    var items: seq<Option<T>>
    var polls: nat

    constructor(items: seq<Option<T>>)
      ensures this.items == items && polls == 0
    {
      this.items := items;
      polls := 0;
    }

    method Next() returns (r: Option<T>)
      modifies this
      ensures r == NextItem(old(items)) && items == AfterItem(old(items)) && polls == old(polls) + 1
    {
      if |items| == 0 {
        r := None;
      } else {
        r := items[0];
        items := items[1..];
      }
      polls := polls + 1;
    }
  }

  /** `Preprocessor::run` as a function, with the inputs it has been run on. */
  class Preprocessor<T, U> {
    const run: T -> U
    var inputs: seq<T>

    constructor(run: T -> U)
      ensures this.run == run && inputs == []
    {
      this.run := run;
      inputs := [];
    }

    method Run(x: T) returns (y: U)
      modifies this
      ensures y == run(x) && inputs == old(inputs) + [x]
    {
      y := run(x);
      inputs := inputs + [x];
    }
  }

  class PreprocessedSensor<T, U> {
    const sensor: Source<T>
    const preprocessor: Preprocessor<T, U>

    constructor(sensor: Source<T>, preprocessor: Preprocessor<T, U>)
      ensures this.sensor == sensor && this.preprocessor == preprocessor
    {
      this.sensor := sensor;
      this.preprocessor := preprocessor;
    }

    /** `next`: the preprocessed sample, and the preprocessor runs only on a sample. */
    method Next() returns (r: Option<U>)
      modifies sensor, preprocessor
      ensures var d := NextItem(old(sensor.items));
        && r == MapOption(d, preprocessor.run)
        && preprocessor.inputs == old(preprocessor.inputs) + (if d.Some? then [d.value] else [])
      ensures sensor.items == AfterItem(old(sensor.items)) && sensor.polls == old(sensor.polls) + 1
    {
      var data := sensor.Next();
      if data.Some? {
        var y := preprocessor.Run(data.value);
        r := Some(y);
      } else {
        r := None;
      }
    }
  }

  /**
   * One step of the combined sensor on the items of both sources: the pair of the two samples,
   * the second source polled only after a sample of the first, and the first sample dropped
   * when the second source has none.
   */
  function CombineStep<T, U>(items1: seq<Option<T>>, items2: seq<Option<U>>)
    : (Option<(T, U)>, seq<Option<T>>, seq<Option<U>>)
  {
    match NextItem(items1)
    case None => (None, AfterItem(items1), items2)
    case Some(a) =>
      match NextItem(items2)
      case None => (None, AfterItem(items1), AfterItem(items2))
      case Some(b) => (Some((a, b)), AfterItem(items1), AfterItem(items2))
  }

  class CombinedSensor<T, U> {
    const sensor1: Source<T>
    const sensor2: Source<U>

    constructor(sensor1: Source<T>, sensor2: Source<U>)
      ensures this.sensor1 == sensor1 && this.sensor2 == sensor2
    {
      this.sensor1 := sensor1;
      this.sensor2 := sensor2;
    }

    /** `next`: a sample of the first sensor, then of the second, paired. */
    method Next() returns (r: Option<(T, U)>)
      requires sensor1 != sensor2
      modifies sensor1, sensor2
      ensures (r, sensor1.items, sensor2.items) == CombineStep(old(sensor1.items), old(sensor2.items))
      ensures sensor1.polls == old(sensor1.polls) + 1
      ensures sensor2.polls == old(sensor2.polls) + (if NextItem(old(sensor1.items)).Some? then 1 else 0)
    {
      var first := sensor1.Next();
      if first.Some? {
        var second := sensor2.Next();
        r := if second.Some? then Some((first.value, second.value)) else None;
      } else {
        r := None;
      }
    }
  }

  /**
   * The combined sample is present exactly when both sources give one; a `None` from the first
   * leaves the second untouched; a sample of the first with none from the second is consumed
   * and lost.
   */
  lemma CombineStepSpec<T, U>(items1: seq<Option<T>>, items2: seq<Option<U>>)
    ensures var (r, rest1, rest2) := CombineStep(items1, items2);
      && (r.Some? <==> NextItem(items1).Some? && NextItem(items2).Some?)
      && (r.Some? ==> r.value == (NextItem(items1).value, NextItem(items2).value))
      && rest1 == AfterItem(items1)
      && (NextItem(items1).None? ==> rest2 == items2)
      && (NextItem(items1).Some? ==> rest2 == AfterItem(items2))
  {
  }

  /** A first sample whose partner is missing does not reappear: the next step starts after it. */
  lemma LostSample<T, U>(a: T, items1: seq<Option<T>>, items2: seq<Option<U>>)
    ensures var (r, rest1, rest2) := CombineStep([Some(a)] + items1, [None] + items2);
      r == None && rest1 == items1 && rest2 == items2
  {
    assert ([Some(a)] + items1)[1..] == items1;
    assert ([None] + items2)[1..] == items2;
  }

  /** `Sensor::attach`: the sensor with the preprocessor, nothing else. */
  method Attach<T, U>(sensor: Source<T>, preprocessor: Preprocessor<T, U>) returns (s: PreprocessedSensor<T, U>)
    ensures fresh(s) && s.sensor == sensor && s.preprocessor == preprocessor
  {
    s := new PreprocessedSensor(sensor, preprocessor);
  }

  /** `Sensor::combine`: the two sensors, nothing else. */
  method Combine<T, U>(sensor1: Source<T>, sensor2: Source<U>) returns (s: CombinedSensor<T, U>)
    ensures fresh(s) && s.sensor1 == sensor1 && s.sensor2 == sensor2
  {
    s := new CombinedSensor(sensor1, sensor2);
  }
}
