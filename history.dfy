/**
 * The bounded metric history of app.py: samples are appended and, once there are more than
 * MAX_METRICS_STORAGE of them, the oldest one is dropped. Readers take the newest k samples.
 */
module History {

  import opened Wrappers

  const MAX_METRICS_STORAGE: nat := 100

  /** One reading of the collection loop. */
  datatype Sample = Sample(timestamp: int, cpuUsage: real, memoryUsage: real)

  /** The newest `n` elements of `s` (all of `s` when it is shorter), oldest first: Python's `s[-n:]` for n > 0. */
  function Last<T>(s: seq<T>, n: nat): (r: seq<T>)
    ensures |r| == Min(|s|, n)
    ensures r == s[|s| - |r|..]
  {
    if |s| <= n then s else s[|s| - n..]
  }

  /** One push: append, then drop the first element if the history is now over capacity. */
  function Push(history: seq<Sample>, sample: Sample): (r: seq<Sample>)
    ensures |r| > 0 && r[|r| - 1] == sample
    ensures |history| <= MAX_METRICS_STORAGE ==> |r| <= MAX_METRICS_STORAGE
    ensures |history| <= MAX_METRICS_STORAGE ==> r == Last(history + [sample], MAX_METRICS_STORAGE)
  {
    var appended := history + [sample];
    if |appended| > MAX_METRICS_STORAGE then appended[1..] else appended
  }

  /** Pushes the samples one after another, first to last. */
  function PushAll(history: seq<Sample>, samples: seq<Sample>): seq<Sample>
    decreases |samples|
  {
    if samples == [] then history else PushAll(Push(history, samples[0]), samples[1..])
  }

  /** Taking the newest n of the newest n of `s` followed by `t` is taking the newest n of `s + t`. */
  lemma LastOfLast<T>(s: seq<T>, t: seq<T>, n: nat)
    ensures Last(Last(s, n) + t, n) == Last(s + t, n)
  {
    var a := Last(s, n) + t;
    var b := s + t;
    assert a == b[|b| - |a|..];
  }

  /** Splitting off the first of the samples after the history. */
  lemma SplitFirst<T>(history: seq<T>, samples: seq<T>)
    requires samples != []
    ensures (history + [samples[0]]) + samples[1..] == history + samples
  {
    assert samples == [samples[0]] + samples[1..];
  }

  /**
   * From any history within capacity, pushing a run of samples leaves exactly the newest
   * MAX_METRICS_STORAGE of (history followed by the samples), in chronological order.
   */
  lemma {:induction false} PushAllKeepsNewest(history: seq<Sample>, samples: seq<Sample>)
    requires |history| <= MAX_METRICS_STORAGE
    ensures PushAll(history, samples) == Last(history + samples, MAX_METRICS_STORAGE)
    decreases |samples|
  {
    if samples == [] {
      assert history + samples == history;
    } else {
      var appended := history + [samples[0]];
      var rest := samples[1..];
      var pushed := Push(history, samples[0]);
      PushAllKeepsNewest(pushed, rest);
      LastOfLast(appended, rest, MAX_METRICS_STORAGE);
      SplitFirst(history, samples);
      calc {
        PushAll(history, samples);
        PushAll(pushed, rest);
        Last(pushed + rest, MAX_METRICS_STORAGE);
        { assert pushed == Last(appended, MAX_METRICS_STORAGE); }
        Last(Last(appended, MAX_METRICS_STORAGE) + rest, MAX_METRICS_STORAGE);
        Last(appended + rest, MAX_METRICS_STORAGE);
        Last(history + samples, MAX_METRICS_STORAGE);
      }
    }
  }

  /** Pushing k samples into an empty history leaves the last min(k, 100) of them; after 150 pushes, samples 51..150. */
  lemma FromEmpty(samples: seq<Sample>)
    ensures PushAll([], samples) == Last(samples, MAX_METRICS_STORAGE)
    ensures |PushAll([], samples)| <= MAX_METRICS_STORAGE
    ensures |samples| == 150 ==> PushAll([], samples) == samples[50..]
  {
    PushAllKeepsNewest([], samples);
    assert [] + samples == samples;
  }
}
