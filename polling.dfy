/** The sensor over many polling cycles. The host calls the sensor's update
    once per scan interval; `Run` is the published state after a sequence of
    such calls, each described by what the API answered in that cycle. */
module Polling {
  import opened GaspySensor

  /** What the API answered in one cycle: the login result and the station
      list (ignored when the login failed). */
  datatype Cycle = Cycle(loginOk: bool, data: seq<Station>)

  function StepCycle(p: Published, c: Cycle): Published {
    Step(p, c.loginOk, c.data)
  }

  /** The published state after the cycles `cs`, in order, starting from `p`. */
  function Run(p: Published, cs: seq<Cycle>): Published
    decreases |cs|
  {
    if cs == [] then p else Run(StepCycle(p, cs[0]), cs[1..])
  }

  /** The cycles of `cs` whose login succeeded, in their order. */
  function Successful(cs: seq<Cycle>): (r: seq<Cycle>)
    ensures forall i :: 0 <= i < |r| ==> r[i].loginOk
    ensures multiset(r) <= multiset(cs)
    ensures forall c :: c in r <==> c in cs && c.loginOk
    decreases |cs|
  {
    if cs == [] then []
    else if cs[0].loginOk then
      assert cs == [cs[0]] + cs[1..];
      [cs[0]] + Successful(cs[1..])
    else
      assert cs == [cs[0]] + cs[1..];
      Successful(cs[1..])
  }

  /** The same cycle `n` times in a row. */
  function Repeat(c: Cycle, n: nat): seq<Cycle> {
    seq(n, _ => c)
  }

  /** Running one batch of cycles and then another is running both in order. */
  lemma {:induction false} RunAppend(p: Published, cs: seq<Cycle>, ds: seq<Cycle>)
    ensures Run(p, cs + ds) == Run(Run(p, cs), ds)
    decreases |cs|
  {
    if cs == [] {
      assert cs + ds == ds;
    } else {
      assert (cs + ds)[1..] == cs[1..] + ds;
      RunAppend(StepCycle(p, cs[0]), cs[1..], ds);
    }
  }

  /** Every run keeps the published state well-shaped; in particular, from a
      new sensor the attributes are always empty or exactly the four station
      keys. */
  lemma {:induction false} RunKeepsShape(p: Published, cs: seq<Cycle>)
    requires WellShaped(p)
    ensures WellShaped(Run(p, cs))
    decreases |cs|
  {
    if cs != [] {
      RunKeepsShape(StepCycle(p, cs[0]), cs[1..]);
    }
  }

  /** The state of a new sensor after any number of cycles is well-shaped. */
  lemma {:induction false} FromInitialKeepsShape(cs: seq<Cycle>)
    ensures var r := Run(Initial, cs);
      r.attributes == map[] || r.attributes.Keys == AttributeKeys
  {
    RunKeepsShape(Initial, cs);
  }

  /** Cycles whose login failed leave no trace: dropping them gives the same
      published state. */
  lemma {:induction false} FailedLoginsAreInvisible(p: Published, cs: seq<Cycle>)
    ensures Run(p, cs) == Run(p, Successful(cs))
    decreases |cs|
  {
    if cs != [] {
      FailedLoginsAreInvisible(StepCycle(p, cs[0]), cs[1..]);
      if !cs[0].loginOk {
        FailedLoginsAreInvisible(p, cs[1..]);
      } else {
        var t := Successful(cs[1..]);
        assert ([cs[0]] + t)[1..] == t;
      }
    }
  }

  /** After a run of login failures the sensor keeps its last published value
      and attributes. */
  lemma {:induction false} LastKnownValuePersists(p: Published, cs: seq<Cycle>, fails: seq<Cycle>)
    requires forall i :: 0 <= i < |fails| ==> !fails[i].loginOk
    ensures Run(p, cs + fails) == Run(p, cs)
  {
    RunAppend(p, cs, fails);
    FailuresChangeNothing(Run(p, cs), fails);
  }

  lemma {:induction false} FailuresChangeNothing(p: Published, fails: seq<Cycle>)
    requires forall i :: 0 <= i < |fails| ==> !fails[i].loginOk
    ensures Run(p, fails) == p
    decreases |fails|
  {
    if fails != [] {
      FailuresChangeNothing(p, fails[1..]);
    }
  }

  /** A published price is never invented: it is the value the run started
      with, or the first station's price in some cycle whose login succeeded. */
  lemma {:induction false} PriceComesFromAFetch(p: Published, cs: seq<Cycle>)
    requires Run(p, cs).reading.Price?
    ensures || Run(p, cs).reading == p.reading
            || exists i :: 0 <= i < |cs| && cs[i].loginOk && |cs[i].data| > 0
                           && Run(p, cs).reading == Price(cs[i].data[0].price)
    decreases |cs|
  {
    if cs != [] {
      var q := StepCycle(p, cs[0]);
      PriceComesFromAFetch(q, cs[1..]);
      if Run(p, cs).reading == q.reading && q.reading != p.reading {
        assert cs[0].loginOk && |cs[0].data| > 0 && q.reading == Price(cs[0].data[0].price);
      } else if Run(p, cs).reading != q.reading {
        var i :| 0 <= i < |cs[1..]| && cs[1..][i].loginOk && |cs[1..][i].data| > 0
                 && Run(p, cs).reading == Price(cs[1..][i].data[0].price);
        assert cs[i + 1] == cs[1..][i];
      }
    }
  }

  /** Polling `n + 1` times with the same answer is polling once. */
  lemma {:induction false} RepeatedCycleIsIdempotent(p: Published, c: Cycle, n: nat)
    ensures Run(p, Repeat(c, n + 1)) == StepCycle(p, c)
    decreases n
  {
    var q := StepCycle(p, c);
    if n == 0 {
      assert Run(q, Repeat(c, 1)[1..]) == q;
    } else {
      assert Repeat(c, n + 1)[1..] == Repeat(c, n);
      RepeatedCycleIsIdempotent(q, c, n - 1);
      StepIsIdempotent(p, c.loginOk, c.data);
    }
  }
}
