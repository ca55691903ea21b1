/**
 * The cooldown tracker shared by both enhanced round controllers: a map from
 * action key to remaining seconds, ticked once a second.
 */
module Cooldowns {

  /** One tick: every positive entry loses one second; the rest and the key set stay. */
  function Ticked(m: map<string, int>): (r: map<string, int>)
    ensures r.Keys == m.Keys
  {
    map k | k in m :: if m[k] > 0 then m[k] - 1 else m[k]
  }

  /** The interval body: the copy of the map is walked key by key, each positive entry decremented. */
  method Tick(prev: map<string, int>) returns (updated: map<string, int>)
    ensures updated == Ticked(prev)
  {
    updated := prev;
    var todo := prev.Keys;
    while todo != {}
      invariant todo <= prev.Keys && updated.Keys == prev.Keys
      invariant forall k :: k in prev && k !in todo ==> updated[k] == Ticked(prev)[k]
      invariant forall k :: k in todo ==> updated[k] == prev[k]
      decreases todo
    {
      var key :| key in todo;
      if updated[key] > 0 {
        updated := updated[key := updated[key] - 1];
      }
      todo := todo - {key};
    }
  }

  /** No cooldown is negative. */
  predicate CooldownsValid(m: map<string, int>)
  {
    forall k :: k in m ==> m[k] >= 0
  }

  /** The floor is zero: ticking never produces a negative cooldown, and a zero entry stays zero. */
  lemma TickedValid(m: map<string, int>)
    requires CooldownsValid(m)
    ensures CooldownsValid(Ticked(m))
    ensures forall k :: k in m && m[k] == 0 ==> Ticked(m)[k] == 0
  {
  }

  /** n ticks in a row. */
  function TickedN(m: map<string, int>, n: nat): (r: map<string, int>)
    ensures r.Keys == m.Keys
  {
    if n == 0 then m else Ticked(TickedN(m, n - 1))
  }

  /** After n ticks a non-negative cooldown c reads max(c - n, 0). */
  lemma {:induction false} TickedNAt(m: map<string, int>, n: nat, k: string)
    requires k in m && m[k] >= 0
    ensures TickedN(m, n)[k] == if m[k] >= n then m[k] - n else 0
  {
    if n > 0 {
      TickedNAt(m, n - 1, k);
    }
  }

  /** `actionCooldowns[id] || 0`: an absent key reads as no cooldown. */
  function Remaining(m: map<string, int>, key: string): (r: int)
    ensures key !in m ==> r == 0
    ensures CooldownsValid(m) ==> r >= 0
    ensures r > 0 ==> key in m
  {
    if key in m then m[key] else 0
  }

  /**
   * Whether an action button is enabled. The board's affordability callback
   * is called with the cost alone, falls through to its default and answers
   * true, so only the cooldown decides.
   */
  function CanUse(m: map<string, int>, key: string): (r: bool)
    ensures r <==> key !in m || m[key] <= 0
  {
    !(Remaining(m, key) > 0)
  }

  /** A freshly set cooldown of d seconds disables its button for exactly d ticks. */
  lemma ReadyAfter(m: map<string, int>, key: string, d: nat, n: nat)
    ensures CanUse(TickedN(m[key := d], n), key) <==> n >= d
  {
    TickedNAt(m[key := d], n, key);
  }
}
