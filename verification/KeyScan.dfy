/** Scanning cache keys batch by batch behind a cursor until enough of them match. */
module KeyScan {
  import opened Wrappers
  import opened GoTime
  import opened Strings

  /** A scanned key with the replies to TYPE and TTL, where None is a failed request. */
  datatype Scanned = Scanned(key: string, kind: Option<string>, ttl: Option<Duration>)

  /** One SCAN reply: its keys and the cursor to go on from; zero ends the scan. */
  datatype Batch = Batch(keys: seq<Scanned>, next: nat)

  datatype KeyEntry = KeyEntry(key: string, kind: string, ttlSeconds: int)

  /** The request's filters; `lower` is the case folding applied to key names. */
  datatype Filter = Filter(q: string, keyType: string, lower: string -> string)

  /** Whole seconds, cut towards zero. */
  function TtlSeconds(ttl: Duration): int {
    if ttl < 0 then -(-ttl / SECOND) else ttl / SECOND
  }

  function Match(f: Filter, s: Scanned): Option<KeyEntry> {
    if f.q != "" && !Contains(f.lower(s.key), f.q) then None
    else if s.kind.None? then None
    else if f.keyType != "" && s.kind.value != f.keyType then None
    else if s.ttl.None? then None
    else Some(KeyEntry(s.key, s.kind.value, TtlSeconds(s.ttl.value)))
  }

  /** The entries of the matching keys, in order. */
  function Matches(f: Filter, keys: seq<Scanned>): seq<KeyEntry> {
    if keys == [] then []
    else
      var front, m := Matches(f, keys[..|keys| - 1]), Match(f, keys[|keys| - 1]);
      if m.Some? then front + [m.value] else front
  }

  lemma {:induction false} MatchesConcat(f: Filter, a: seq<Scanned>, b: seq<Scanned>)
    ensures Matches(f, a + b) == Matches(f, a) + Matches(f, b)
    decreases |b|
  {
    if b == [] {
      assert a + b == a;
    } else {
      MatchesConcat(f, a, b[..|b| - 1]);
      assert (a + b)[..|a + b| - 1] == a + b[..|b| - 1];
    }
  }

  function Take(es: seq<KeyEntry>, limit: nat): seq<KeyEntry> {
    if |es| <= limit then es else es[..limit]
  }

  /** The keys of all batches, one after the other. */
  function Flat(batches: seq<Batch>): seq<Scanned> {
    if batches == [] then [] else Flat(batches[..|batches| - 1]) + batches[|batches| - 1].keys
  }

  /** How a chain of SCAN replies ends: with cursor zero or with a failed request. */
  datatype End = Done | Broken

  /** A finite chain: no batch but the last may carry cursor zero, and the last one does if the
      chain is not broken. */
  ghost predicate Chain(batches: seq<Batch>, end: End) {
    && (forall i :: 0 <= i < |batches| - 1 ==> batches[i].next != 0)
    && match end
       case Done => batches != [] && batches[|batches| - 1].next == 0
       case Broken => batches == [] || batches[|batches| - 1].next != 0
  }

  /** The matches in the first `n` batches. */
  function FoundIn(f: Filter, batches: seq<Batch>, n: nat): seq<KeyEntry>
    requires n <= |batches|
  {
    Matches(f, Flat(batches[..n]))
  }

  /** The scan ends with batch `i`, the first after which there are enough matches or the last of all. */
  ghost predicate EndsWith(batches: seq<Batch>, f: Filter, limit: nat, i: nat) {
    && i < |batches| && |FoundIn(f, batches, i)| < limit
    && (|FoundIn(f, batches, i + 1)| >= limit || batches[i].next == 0)
  }

  /** The scan takes the first `limit` matches of the whole chain in order, wherever its batches
      are cut. It fails exactly if the chain breaks before there are enough, and fewer than
      `limit` matches mean that cursor zero was reached and every match is in the answer. The
      cursor is that of the batch the scan ended with. */
  method ScanKeys(batches: seq<Batch>, end: End, start: nat, f: Filter, limit: nat)
    returns (keys: seq<KeyEntry>, cursor: nat, failed: bool)
    requires Chain(batches, end) && limit > 0
    ensures failed <==> end.Broken? && |Matches(f, Flat(batches))| < limit
    ensures !failed ==> keys == Take(Matches(f, Flat(batches)), limit)
    ensures !failed && |keys| < limit ==> cursor == 0 && end.Done?
    ensures !failed ==> exists i: nat :: EndsWith(batches, f, limit, i) && cursor == batches[i].next
  {
    keys, cursor, failed := [], start, false;
    var i := 0;
    FoundFrom(f, batches, 0);
    hide Flat, Matches, FoundIn;
    while |keys| < limit
      invariant 0 <= i <= |batches|
      invariant keys == Take(FoundIn(f, batches, i), limit)
      invariant i > 0 ==> batches[i - 1].next != 0 && cursor == batches[i - 1].next
      invariant if i > 0 then |FoundIn(f, batches, i - 1)| < limit else keys == []
      decreases |batches| - i
    {
      FoundFrom(f, batches, i);
      if i == |batches| {
        failed := true;
        return;
      }
      cursor := batches[i].next;
      keys := ScanBatch(f, batches[i].keys, keys, limit);
      i := i + 1;
      if cursor == 0 {
        break;
      }
    }
    assert EndsWith(batches, f, limit, i - 1);
    FoundFrom(f, batches, i);
  }

  /** The inner loop over one batch, which stops as soon as there are `limit` keys. */
  method ScanBatch(f: Filter, scanned: seq<Scanned>, found: seq<KeyEntry>, limit: nat) returns (keys: seq<KeyEntry>)
    requires |found| <= limit
    ensures keys == Take(found + Matches(f, scanned), limit)
  {
    keys := found;
    for j := 0 to |scanned|
      invariant keys == found + Matches(f, scanned[..j]) && |keys| <= limit
    {
      assert scanned[..j + 1][..j] == scanned[..j];
      MatchesConcat(f, scanned[..j], scanned[j..]);
      assert scanned[..j] + scanned[j..] == scanned;
      if |keys| >= limit {
        return;
      }
      var k := scanned[j];
      if f.q != "" && !Contains(f.lower(k.key), f.q) {
        continue;
      }
      if k.kind.None? {
        continue;
      }
      if f.keyType != "" && k.kind.value != f.keyType {
        continue;
      }
      if k.ttl.None? {
        continue;
      }
      keys := keys + [KeyEntry(k.key, k.kind.value, TtlSeconds(k.ttl.value))];
    }
    assert scanned[..|scanned|] == scanned;
  }

  lemma FlatStep(batches: seq<Batch>, i: nat)
    requires i < |batches|
    ensures Flat(batches[..i + 1]) == Flat(batches[..i]) + batches[i].keys
  {
    assert batches[..i + 1][..i] == batches[..i];
  }

  lemma {:induction false} FlatConcat(a: seq<Batch>, b: seq<Batch>)
    ensures Flat(a + b) == Flat(a) + Flat(b)
    decreases |b|
  {
    if b == [] {
      assert a + b == a;
    } else {
      var front, last := b[..|b| - 1], b[|b| - 1].keys;
      FlatConcat(a, front);
      assert (a + b)[..|a + b| - 1] == a + front;
      assert Flat(a) + (Flat(front) + last) == (Flat(a) + Flat(front)) + last;
    }
  }

  lemma FoundFrom(f: Filter, batches: seq<Batch>, i: nat)
    requires i <= |batches|
    ensures FoundIn(f, batches, i) <= Matches(f, Flat(batches))
    ensures i == 0 ==> FoundIn(f, batches, i) == []
    ensures if i < |batches| then FoundIn(f, batches, i + 1) == FoundIn(f, batches, i) + Matches(f, batches[i].keys)
            else FoundIn(f, batches, i) == Matches(f, Flat(batches))
  {
    assert batches == batches[..i] + batches[i..];
    FlatConcat(batches[..i], batches[i..]);
    MatchesConcat(f, Flat(batches[..i]), Flat(batches[i..]));
    if i < |batches| {
      FlatStep(batches, i);
      MatchesConcat(f, Flat(batches[..i]), batches[i].keys);
    } else {
      assert batches[..i] == batches;
    }
  }

  /** A key is listed, once and with its own type and time to live, exactly if its folded name has
      the search text in it, TYPE and TTL answered, and the type is the requested one. */
  lemma ListedExactly(f: Filter, s: Scanned)
    ensures Matches(f, [s])
         == if && (f.q == "" || exists i :: 0 <= i <= |f.lower(s.key)| && OccursAt(f.lower(s.key), f.q, i))
               && s.kind.Some? && s.ttl.Some? && (f.keyType == "" || s.kind == Some(f.keyType))
            then [KeyEntry(s.key, s.kind.value, TtlSeconds(s.ttl.value))]
            else []
  {
    assert [s][..0] == [] && Matches(f, []) == [];
    hide OccursAt, TtlSeconds;
  }

  /** Every listed entry is that of a scanned key, and every key that passes the filters is listed. */
  lemma {:induction false} MatchesAreListed(f: Filter, keys: seq<Scanned>, e: KeyEntry)
    ensures e in Matches(f, keys) <==> exists s :: s in keys && Matches(f, [s]) == [e]
    decreases |keys|
  {
    hide Match;
    if keys != [] {
      var front, last := keys[..|keys| - 1], keys[|keys| - 1];
      MatchesAreListed(f, front, e);
      assert keys == front + [last];
      assert [last][..0] == [] && Matches(f, []) == [];
      assert Matches(f, [last]) == if Match(f, last).Some? then [Match(f, last).value] else [];
    }
  }

  /** A time to live is cut towards zero: -1 and -2 are reported exactly for that many whole
      negative seconds, and less than a second reads as zero. */
  lemma TtlIsCutTowardsZero(ttl: Duration, n: int)
    ensures TtlSeconds(ttl) == n
       <==> if n > 0 then n * SECOND <= ttl < (n + 1) * SECOND
            else if n == 0 then -SECOND < ttl < SECOND
            else (n - 1) * SECOND < ttl <= n * SECOND
  {
  }

  /** So the replies that mean "no expiry" and "key gone", if they arrive as one and two negative
      nanoseconds, are both reported as zero. */
  lemma NoExpiryAndGoneReadAsZero()
    ensures TtlSeconds(-1) == TtlSeconds(-2) == 0
  {
  }
}
