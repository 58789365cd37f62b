/**
 * The channel pool of the IPC layer: reply-channel names are drawn from
 * nanoid ahead of time and handed out and taken back, a timestamp-and-counter
 * generator mints names without pooling, and a hybrid provider picks one of
 * the two by the number of functions in a call.
 *
 * nanoid is modelled as a given function from the number of names drawn so
 * far to the name drawn next; it is assumed never to repeat a name.
 */
module ChannelPool {
  import opened Wrappers
  import opened Strings

  /** The options object; an option left out (or null) is None. */
  datatype PoolOptions = PoolOptions(poolSize: Option<int>, autoExpand: Option<bool>, expandSize: Option<int>, prefix: Option<string>)

  /** A channel as the pool holds it: a name, or undefined (what pop() gives on an empty pool). */
  type Channel = Option<string>

  /** generateChannel's naming: the prefix and the suffix joined by an underscore, or the bare suffix. */
  function ChannelName(prefix: string, suffix: string): (r: string)
    ensures prefix == "" ==> r == suffix
    ensures prefix != "" ==> |r| == |prefix| + 1 + |suffix| && r[..|prefix|] == prefix && r[|prefix|] == '_' && r[|prefix| + 1..] == suffix
  {
    if prefix != "" then prefix + "_" + suffix else suffix
  }

  /** Different suffixes give different names under the same prefix. */
  lemma ChannelNameInjective(prefix: string, a: string, b: string)
    requires ChannelName(prefix, a) == ChannelName(prefix, b)
    ensures a == b
  {
    if prefix != "" {
      assert a == ChannelName(prefix, a)[|prefix| + 1..];
    }
  }

  /** A name generator that never repeats itself. */
  ghost predicate Injective(ids: nat -> string) {
    forall i: nat, j: nat :: ids(i) == ids(j) ==> i == j
  }

  /** A loop runs `for (let i = 0; i < count; i++)` this many times. */
  function Times(count: int): nat {
    if count > 0 then count else 0
  }

  /** The record getStats returns. */
  datatype Stats = Stats(poolSize: nat, inUse: nat, total: nat)

  /** A sequence without repeats has as many distinct elements as entries. */
  lemma {:induction false} DistinctCard(s: seq<Channel>)
    requires forall i, j :: 0 <= i < j < |s| ==> s[i] != s[j]
    ensures |set c | c in s| == |s|
  {
    if s != [] {
      var init := s[..|s| - 1];
      DistinctCard(init);
      assert (set c | c in s) == (set c | c in init) + {s[|s| - 1]};
      assert s[|s| - 1] !in (set c | c in init);
    }
  }

  class Pool {
    const poolSize: int
    const autoExpand: bool
    const expandSize: int
    const prefix: string
    /** nanoid: the name drawn after `k` draws is nanoid(k). */
    const nanoid: nat -> string
    var pool: seq<Channel>
    var inUse: set<Channel>
    /** How many names were drawn from nanoid. */
    var drawn: nat
    /** Every name generateChannel has produced. */
    ghost var issued: set<string>

    /** The k-th name generateChannel produces. */
    function Minted(k: nat): string
    {
      ChannelName(prefix, nanoid(k))
    }

    /**
     * The pool holds each channel once, no pooled channel is in use, and
     * every named channel, pooled or in use, is one generateChannel produced.
     */
    ghost predicate Valid()
      reads this
    {
      && Injective(nanoid)
      && (forall i, j :: 0 <= i < j < |pool| ==> pool[i] != pool[j])
      && (forall i :: 0 <= i < |pool| ==> pool[i] !in inUse)
      && (forall i :: 0 <= i < |pool| && pool[i].Some? ==> pool[i].value in issued)
      && (forall c :: c in inUse && c.Some? ==> c.value in issued)
      && issued == (set k | 0 <= k < drawn :: Minted(k))
    }

    /** Every channel the pool holds, pooled or in use. */
    function Held(): set<Channel>
      reads this
    {
      (set c | c in pool) + inUse
    }

    /** getStats: the pool length, the in-use count and their sum, which counts every held channel once. */
    function GetStats(): (r: Stats)
      reads this
      ensures r.poolSize == |pool| && r.inUse == |inUse| && r.total == r.poolSize + r.inUse
      ensures Valid() ==> r.total == |Held()|
    {
      assert Valid() ==> |pool| + |inUse| == |Held()| by {
        if Valid() {
          DistinctCard(pool);
          assert (set c | c in pool) * inUse == {};
        }
      }
      Stats(|pool|, |inUse|, |pool| + |inUse|)
    }

    /** The names generateChannel produces next, from draw `from` on. */
    function MintedRange(from: nat, n: nat): (r: seq<Channel>)
      ensures |r| == n
      ensures forall i :: 0 <= i < n ==> r[i] == Some(Minted(from + i))
    {
      seq(n, i requires 0 <= i < n => Some(Minted(from + i)))
    }

    /** new ChannelPool(options): the defaults applied, then poolSize channels pre-allocated. */
    constructor (options: PoolOptions, nanoid: nat -> string)
      requires Injective(nanoid)
      ensures Valid()
      ensures poolSize == options.poolSize.GetOr(10) && autoExpand == options.autoExpand.GetOr(true)
      ensures expandSize == options.expandSize.GetOr(5) && prefix == options.prefix.GetOr("")
      ensures this.nanoid == nanoid && drawn == Times(poolSize) && inUse == {}
      ensures pool == MintedRange(0, Times(poolSize))
    {
      poolSize := options.poolSize.GetOr(10);
      autoExpand := options.autoExpand.GetOr(true);
      expandSize := options.expandSize.GetOr(5);
      prefix := options.prefix.GetOr("");
      this.nanoid := nanoid;
      pool := [];
      inUse := {};
      drawn := 0;
      issued := {};
      new;
      Expand(poolSize);
    }

    /** generateChannel: the next name, never produced before. */
    method Generate() returns (name: string)
      requires Valid()
      modifies this`drawn, this`issued
      ensures Valid()
      ensures name == Minted(old(drawn)) && name !in old(issued)
      ensures drawn == old(drawn) + 1 && issued == old(issued) + {name}
    {
      name := ChannelName(prefix, nanoid(drawn));
      assert name !in issued by {
        if name in issued {
          var k :| 0 <= k < drawn && Minted(k) == name;
          ChannelNameInjective(prefix, nanoid(k), nanoid(drawn));
        }
      }
      assert (set k | 0 <= k < drawn + 1 :: Minted(k)) == issued + {name} by {
        forall x | x in issued + {name}
          ensures x in (set k | 0 <= k < drawn + 1 :: Minted(k))
        {
          if x != name {
            var k :| 0 <= k < drawn && Minted(k) == x;
            assert 0 <= k < drawn + 1;
          } else {
            assert Minted(drawn) == x;
          }
        }
      }
      drawn := drawn + 1;
      issued := issued + {name};
    }

    /** expand(count): push `count` new channels (none when count is not positive). */
    method Expand(count: int)
      requires Valid()
      modifies this`pool, this`drawn, this`issued
      ensures Valid()
      ensures pool == old(pool) + MintedRange(old(drawn), Times(count))
      ensures drawn == old(drawn) + Times(count)
    {
      var i := 0;
      while i < count
        invariant Valid()
        invariant 0 <= i <= Times(count)
        invariant drawn == old(drawn) + i
        invariant pool == old(pool) + MintedRange(old(drawn), i)
        invariant inUse == old(inUse)
      {
        var name := Generate();
        pool := pool + [Some(name)];
        i := i + 1;
      }
    }

    /**
     * acquire: pop the last pooled channel into use. An empty pool first
     * grows by expandSize when autoExpand is on (and pop() gives undefined if
     * it is still empty); with autoExpand off a new channel goes straight
     * into use.
     */
    method Acquire() returns (ch: Channel)
      requires Valid()
      modifies this`pool, this`inUse, this`drawn, this`issued
      ensures Valid()
      ensures inUse == old(inUse) + {ch}
      ensures ch.Some? ==> ch !in old(inUse)
      ensures old(|pool|) > 0 ==> ch == old(pool[|pool| - 1]) && pool == old(pool[..|pool| - 1]) && drawn == old(drawn)
      ensures old(|pool|) == 0 && !autoExpand ==>
        ch == Some(Minted(old(drawn))) && pool == [] && drawn == old(drawn) + 1
      ensures old(|pool|) == 0 && autoExpand && expandSize > 0 ==>
        ch == Some(Minted(old(drawn) + expandSize - 1)) && pool == MintedRange(old(drawn), expandSize - 1)
        && drawn == old(drawn) + expandSize
      ensures old(|pool|) == 0 && autoExpand && expandSize <= 0 ==> ch == None && pool == [] && drawn == old(drawn)
    {
      if |pool| == 0 {
        if autoExpand {
          Expand(expandSize);
        } else {
          var name := Generate();
          ch := Some(name);
          inUse := inUse + {ch};
          return;
        }
      }
      ch := Pop();
    }

    /** pool.pop() moved into the in-use set; undefined when the pool is empty. */
    method Pop() returns (ch: Channel)
      requires Valid()
      modifies this`pool, this`inUse
      ensures Valid()
      ensures inUse == old(inUse) + {ch}
      ensures ch.Some? ==> ch !in old(inUse)
      ensures old(|pool|) > 0 ==> ch == old(pool[|pool| - 1]) && pool == old(pool[..|pool| - 1])
      ensures old(|pool|) == 0 ==> ch == None && pool == []
    {
      if |pool| == 0 {
        ch := None;
      } else {
        ch := pool[|pool| - 1];
        pool := pool[..|pool| - 1];
      }
      inUse := inUse + {ch};
    }

    /**
     * release: a channel not in use is ignored; otherwise it leaves the
     * in-use set and goes back to the pool while the pool is shorter than
     * twice poolSize.
     */
    method Release(ch: Channel)
      requires Valid()
      modifies this`pool, this`inUse
      ensures Valid()
      ensures (pool, inUse) == Released(old(pool), old(inUse), ch, 2 * poolSize)
      ensures GetStats().total <= old(GetStats().total)
    {
      ReleasedBounds(pool, inUse, ch, 2 * poolSize);
      if ch !in inUse {
        return;
      }
      inUse := inUse - {ch};
      if |pool| < poolSize * 2 {
        pool := pool + [ch];
      }
    }

    /** releaseAll: release each channel in turn. */
    method ReleaseAll(channels: seq<Channel>)
      requires Valid()
      modifies this`pool, this`inUse
      ensures Valid()
      ensures (pool, inUse) == ReleasedAll(old(pool), old(inUse), channels, 2 * poolSize)
      ensures GetStats().total <= old(GetStats().total)
    {
      ReleasedAllBounds(pool, inUse, channels, 2 * poolSize);
      var i := 0;
      while i < |channels|
        invariant Valid()
        invariant 0 <= i <= |channels|
        invariant (pool, inUse) == ReleasedAll(old(pool), old(inUse), channels[..i], 2 * poolSize)
      {
        ReleasedAllSnoc(old(pool), old(inUse), channels[..i], channels[i], 2 * poolSize);
        assert channels[..i + 1] == channels[..i] + [channels[i]];
        Release(channels[i]);
        i := i + 1;
      }
      assert channels[..i] == channels;
    }

    /** clear: empty the pool and the in-use set. */
    method Clear()
      requires Valid()
      modifies this`pool, this`inUse
      ensures Valid()
      ensures pool == [] && inUse == {}
    {
      pool := [];
      inUse := {};
    }
  }

  /** The pool and in-use set after releasing one channel, with the pool capped at `cap`. */
  function Released(pool: seq<Channel>, inUse: set<Channel>, ch: Channel, cap: int): (seq<Channel>, set<Channel>) {
    if ch !in inUse then (pool, inUse)
    else if |pool| < cap then (pool + [ch], inUse - {ch})
    else (pool, inUse - {ch})
  }

  /** Releasing each channel in turn. */
  function ReleasedAll(pool: seq<Channel>, inUse: set<Channel>, chs: seq<Channel>, cap: int): (seq<Channel>, set<Channel>) {
    if chs == [] then (pool, inUse)
    else
      var r := ReleasedAll(pool, inUse, chs[..|chs| - 1], cap);
      Released(r.0, r.1, chs[|chs| - 1], cap)
  }

  lemma ReleasedAllSnoc(pool: seq<Channel>, inUse: set<Channel>, chs: seq<Channel>, ch: Channel, cap: int)
    ensures ReleasedAll(pool, inUse, chs + [ch], cap) ==
      var r := ReleasedAll(pool, inUse, chs, cap); Released(r.0, r.1, ch, cap)
  {
    assert (chs + [ch])[..|chs|] == chs;
  }

  /**
   * Releasing never grows the pool beyond the larger of its length and the
   * cap, and never increases the total of pooled and in-use channels: a
   * channel not in use is ignored, and one that does not fit is dropped.
   */
  lemma ReleasedBounds(pool: seq<Channel>, inUse: set<Channel>, ch: Channel, cap: int)
    ensures var r := Released(pool, inUse, ch, cap);
      && |r.0| <= (if |pool| < cap then cap else |pool|)
      && |r.0| + |r.1| <= |pool| + |inUse|
      && ch !in r.1
      && (ch in inUse ==> |r.1| == |inUse| - 1)
  {
  }

  /** The same bounds for a whole releaseAll. */
  lemma {:induction false} ReleasedAllBounds(pool: seq<Channel>, inUse: set<Channel>, chs: seq<Channel>, cap: int)
    ensures var r := ReleasedAll(pool, inUse, chs, cap);
      && |r.0| <= (if |pool| < cap then cap else |pool|)
      && |r.0| + |r.1| <= |pool| + |inUse|
      && (forall c :: c in chs ==> c !in r.1)
  {
    if chs != [] {
      var init := chs[..|chs| - 1];
      ReleasedAllBounds(pool, inUse, init, cap);
      var r := ReleasedAll(pool, inUse, init, cap);
      ReleasedBounds(r.0, r.1, chs[|chs| - 1], cap);
      assert chs == init + [chs[|chs| - 1]];
    }
  }

  function Pow10(k: nat): nat {
    if k == 0 then 1 else 10 * Pow10(k - 1)
  }

  /** A number below 10^k has at most k digits. */
  lemma {:induction false} NatToStringShort(n: nat, k: nat)
    requires k >= 1 && n < Pow10(k)
    ensures |NatToString(n)| <= k
  {
    if n >= 10 {
      NatToStringShort(n / 10, k - 1);
    }
  }

  /**
   * The counter part of a generated name: the count padded with zeros to
   * four digits.
   */
  function CountText(count: nat): string {
    PadStart(NatToString(count), 4, '0')
  }

  /** Every count the generator uses is written with exactly four digits, and reads back as the count. */
  lemma CountTextFourDigits(count: nat)
    requires count <= 9999
    ensures |CountText(count)| == 4 && AllDigits(CountText(count))
    ensures DigitsValue(CountText(count)) == count
  {
    NatToStringShort(count, 4);
    DigitsValueOfPadded(count, 4);
  }

  class Generator {
    var counter: nat
    const prefix: string

    /** The counter stays below 10000. */
    predicate Valid()
      reads this
    {
      counter <= 9999
    }

    constructor (prefix: string)
      ensures Valid() && counter == 0 && this.prefix == prefix
    {
      counter := 0;
      this.prefix := prefix;
    }

    /**
     * generate: `<now>_<counter padded to 4 digits>`, behind the prefix if
     * any; the counter then moves on, wrapping from 9999 to 0. `now` is
     * Date.now().
     */
    method Generate(now: int) returns (name: string)
      requires Valid()
      modifies this`counter
      ensures Valid()
      ensures counter == (old(counter) + 1) % 10000
      ensures name == ChannelName(prefix, IntToString(now) + "_" + CountText(old(counter)))
      ensures |CountText(old(counter))| == 4 && DigitsValue(CountText(old(counter))) == old(counter)
    {
      var count := counter;
      counter := counter + 1;
      if counter > 9999 {
        counter := 0;
      }
      CountTextFourDigits(count);
      name := ChannelName(prefix, IntToString(now) + "_" + CountText(count));
    }
  }

  class Hybrid {
    const pool: Pool
    const generator: Generator
    const threshold: int

    ghost predicate Valid()
      reads this, pool, generator
    {
      pool.Valid() && generator.Valid()
    }

    /** new HybridChannelProvider(poolOptions, threshold): the threshold defaults to 3. */
    constructor (poolOptions: Option<PoolOptions>, threshold: Option<int>, nanoid: nat -> string)
      requires Injective(nanoid)
      ensures Valid() && fresh(pool) && fresh(generator)
      ensures this.threshold == threshold.GetOr(3)
      ensures generator.prefix == (if poolOptions.Some? then poolOptions.value.prefix.GetOr("") else "")
      ensures generator.counter == 0 && pool.inUse == {}
    {
      var options := poolOptions.GetOr(PoolOptions(None, None, None, None));
      pool := new Pool(options, nanoid);
      generator := new Generator(options.prefix.GetOr(""));
      this.threshold := threshold.GetOr(3);
    }

    /**
     * acquire(functionCount): a generated channel (nothing to release) when
     * the call has more functions than the threshold, else a pooled one
     * (released back to the pool). `pooled` says which release is returned.
     */
    method Acquire(functionCount: int, now: int) returns (ch: Channel, pooled: bool)
      requires Valid()
      modifies pool`pool, pool`inUse, pool`drawn, pool`issued, generator`counter
      ensures Valid()
      ensures pooled <==> functionCount <= threshold
      ensures !pooled ==>
        && ch == Some(ChannelName(generator.prefix, IntToString(now) + "_" + CountText(old(generator.counter))))
        && pool.pool == old(pool.pool) && pool.inUse == old(pool.inUse)
      ensures !pooled ==> generator.counter == (old(generator.counter) + 1) % 10000 && pool.drawn == old(pool.drawn)
      ensures pooled ==> generator.counter == old(generator.counter) && pool.inUse == old(pool.inUse) + {ch}
      ensures pooled && ch.Some? ==> ch !in old(pool.inUse)
      ensures pooled && old(|pool.pool|) > 0 ==>
        ch == old(pool.pool[|pool.pool| - 1]) && pool.pool == old(pool.pool[..|pool.pool| - 1]) && pool.drawn == old(pool.drawn)
      ensures pooled && old(|pool.pool|) == 0 && !pool.autoExpand ==>
        ch == Some(pool.Minted(old(pool.drawn))) && pool.pool == [] && pool.drawn == old(pool.drawn) + 1
      ensures pooled && old(|pool.pool|) == 0 && pool.autoExpand && pool.expandSize > 0 ==>
        ch == Some(pool.Minted(old(pool.drawn) + pool.expandSize - 1))
        && pool.pool == pool.MintedRange(old(pool.drawn), pool.expandSize - 1)
        && pool.drawn == old(pool.drawn) + pool.expandSize
      ensures pooled && old(|pool.pool|) == 0 && pool.autoExpand && pool.expandSize <= 0 ==>
        ch == None && pool.pool == [] && pool.drawn == old(pool.drawn)
    {
      if functionCount > threshold {
        var name := generator.Generate(now);
        return Some(name), false;
      }
      ch := pool.Acquire();
      pooled := true;
    }

    /** The release function acquire returned: the pool's release for a pooled channel, nothing otherwise. */
    method Release(ch: Channel, pooled: bool)
      requires Valid()
      modifies pool`pool, pool`inUse
      ensures Valid()
      ensures pooled ==> (pool.pool, pool.inUse) == Released(old(pool.pool), old(pool.inUse), ch, 2 * pool.poolSize)
      ensures !pooled ==> pool.pool == old(pool.pool) && pool.inUse == old(pool.inUse)
    {
      if pooled {
        pool.Release(ch);
      }
    }

    /** getStats: the pool's statistics; generated channels are not counted. */
    function GetStats(): (r: Stats)
      reads this, pool
      ensures r.poolSize == |pool.pool| && r.inUse == |pool.inUse| && r.total == r.poolSize + r.inUse
      ensures pool.Valid() ==> r.total == |pool.Held()|
    {
      pool.GetStats()
    }
  }
}
