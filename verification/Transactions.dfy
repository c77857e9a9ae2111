// Normalised transactions, asset keys, and the sorted duplicate-free lists computed from them.
module Transactions {
  import opened Basics
  import opened Calendar
  import opened Text

  datatype Asset = Asset(code: string, issuer: Option<AccountId>) {
    function Key(): string {
      match issuer
      case Some(i) => code + ":" + i
      case None => code
    }
  }

  /** A key is the code, and the issuer after a colon if there is one; as long as codes have no colon, different
      assets have different keys. */
  lemma KeyIdentifiesAsset(a: Asset, b: Asset)
    ensures a.issuer.None? ==> a.Key() == a.code
    ensures a.issuer.Some? ==>
      a.code <= a.Key() && |a.Key()| > |a.code| && a.Key()[|a.code|] == ':' && a.Key()[|a.code| + 1..] == a.issuer.value
    ensures ':' !in a.code && ':' !in b.code ==> (a.Key() == b.Key() <==> a == b)
  {
    if ':' !in a.code && ':' !in b.code && a.Key() == b.Key() {
      if a.issuer.Some? { assert a.Key()[|a.code|] == ':' && a.Key()[..|a.code|] == a.code; }
      if b.issuer.Some? { assert b.Key()[|b.code|] == ':' && b.Key()[..|b.code|] == b.code; }
      assert |a.code| == |b.code|;
      assert a.issuer.Some? ==> a.Key()[|a.code| + 1..] == a.issuer.value;
      assert b.issuer.Some? ==> b.Key()[|b.code| + 1..] == b.issuer.value;
    }
  }

  datatype Movement = Movement(asset: Asset, from: AccountId, to: AccountId, amount: real)

  datatype Transaction = Transaction(
    txId: TxId, ledger: nat, createdAt: Instant, source: AccountId, fee: int, memo: Option<string>,
    operationCount: nat, successful: bool, movements: seq<Movement>, contractIds: seq<string>)

  // ---------- Sort by key, then drop repeated keys ----------

  /** Stable insertion: after every element whose key is not greater. */
  function InsertByKey<T>(key: T -> string, x: T, xs: seq<T>): seq<T> {
    if xs == [] || Less(key(x), key(xs[0])) then [x] + xs else [xs[0]] + InsertByKey(key, x, xs[1..])
  }

  /** `sort_by_key`: stable, ascending. */
  function SortByKey<T>(key: T -> string, xs: seq<T>): seq<T> {
    if xs == [] then [] else InsertByKey(key, xs[|xs| - 1], SortByKey(key, xs[..|xs| - 1]))
  }

  /** `dedup_by_key`: an element whose key is that of the last one kept is dropped. */
  function DedupByKey<T>(key: T -> string, xs: seq<T>): (ys: seq<T>)
    ensures xs != [] ==> ys != []
  {
    if |xs| < 2 then xs
    else
      var kept, x := DedupByKey(key, xs[..|xs| - 1]), xs[|xs| - 1];
      if key(x) == key(kept[|kept| - 1]) then kept else kept + [x]
  }

  function SortDedup<T>(key: T -> string, xs: seq<T>): seq<T> { DedupByKey(key, SortByKey(key, xs)) }

  ghost predicate Ascending<T>(key: T -> string, xs: seq<T>) {
    forall i, j :: 0 <= i < j < |xs| ==> !Less(key(xs[j]), key(xs[i]))
  }

  ghost predicate StrictlyAscending<T>(key: T -> string, xs: seq<T>) {
    forall i, j :: 0 <= i < j < |xs| ==> Less(key(xs[i]), key(xs[j]))
  }

  lemma {:induction false} InsertAdds<T>(key: T -> string, x: T, xs: seq<T>)
    ensures multiset(InsertByKey(key, x, xs)) == multiset(xs) + multiset{x}
  {
    if xs != [] && !Less(key(x), key(xs[0])) {
      InsertAdds(key, x, xs[1..]);
      assert xs == [xs[0]] + xs[1..];
    }
  }

  lemma ConsAscending<T>(key: T -> string, x: T, xs: seq<T>)
    requires Ascending(key, xs) && forall j :: 0 <= j < |xs| ==> !Less(key(xs[j]), key(x))
    ensures Ascending(key, [x] + xs)
  {
    var ys := [x] + xs;
    forall i, j | 0 <= i < j < |ys| ensures !Less(key(ys[j]), key(ys[i])) {
      assert ys[j] == xs[j - 1];
      if i > 0 { assert ys[i] == xs[i - 1]; }
    }
  }

  /** Nothing new appears by inserting. */
  lemma {:induction false} InsertHas<T>(key: T -> string, x: T, xs: seq<T>, j: nat)
    requires j < |InsertByKey(key, x, xs)|
    ensures InsertByKey(key, x, xs)[j] == x || InsertByKey(key, x, xs)[j] in xs
  {
    if xs != [] && !Less(key(x), key(xs[0])) {
      if j > 0 { InsertHas(key, x, xs[1..], j - 1); }
    }
  }

  lemma {:induction false} InsertKeepsOrder<T>(key: T -> string, x: T, xs: seq<T>)
    requires Ascending(key, xs)
    ensures Ascending(key, InsertByKey(key, x, xs))
  {
    if xs == [] {
    } else if Less(key(x), key(xs[0])) {
      forall j | 0 <= j < |xs| ensures !Less(key(xs[j]), key(x)) {
        LessIsIrreflexive(key(xs[0]));
        if Less(key(xs[j]), key(x)) { LessIsTransitive(key(xs[j]), key(x), key(xs[0])); }
      }
      ConsAscending(key, x, xs);
    } else {
      var rest := InsertByKey(key, x, xs[1..]);
      InsertKeepsOrder(key, x, xs[1..]);
      forall j | 0 <= j < |rest| ensures !Less(key(rest[j]), key(xs[0])) {
        InsertHas(key, x, xs[1..], j);
        if rest[j] in xs[1..] {
          var i :| 0 <= i < |xs| - 1 && xs[1..][i] == rest[j];
          assert xs[i + 1] == rest[j];
        }
      }
      ConsAscending(key, xs[0], rest);
    }
  }

  lemma {:induction false} SortSorts<T>(key: T -> string, xs: seq<T>)
    ensures Ascending(key, SortByKey(key, xs)) && multiset(SortByKey(key, xs)) == multiset(xs)
  {
    if xs != [] {
      SortSorts(key, xs[..|xs| - 1]);
      InsertKeepsOrder(key, xs[|xs| - 1], SortByKey(key, xs[..|xs| - 1]));
      InsertAdds(key, xs[|xs| - 1], SortByKey(key, xs[..|xs| - 1]));
      hide InsertByKey, Ascending;
      assert xs == xs[..|xs| - 1] + [xs[|xs| - 1]];
    }
  }

  ghost predicate HasKey<T>(key: T -> string, ys: seq<T>, k: string) {
    exists j :: 0 <= j < |ys| && key(ys[j]) == k
  }

  /** `ys` holds only elements of `xs`, and one for every key of `xs`. */
  ghost predicate CoversKeys<T>(key: T -> string, xs: seq<T>, ys: seq<T>) {
    && (forall j :: 0 <= j < |ys| ==> ys[j] in xs)
    && (forall i :: 0 <= i < |xs| ==> HasKey(key, ys, key(xs[i])))
  }

  lemma HasKeySnoc<T>(key: T -> string, ys: seq<T>, x: T, k: string)
    ensures HasKey(key, ys + [x], k) <==> HasKey(key, ys, k) || key(x) == k
  {
    var zs := ys + [x];
    assert zs[|ys|] == x;
    if HasKey(key, ys, k) {
      var j :| 0 <= j < |ys| && key(ys[j]) == k;
      assert key(zs[j]) == k;
    }
  }

  lemma {:induction false} DedupStrict<T>(key: T -> string, xs: seq<T>)
    requires Ascending(key, xs)
    ensures var ys := DedupByKey(key, xs);
      && StrictlyAscending(key, ys)
      && (xs != [] ==> key(ys[|ys| - 1]) == key(xs[|xs| - 1]))
  {
    if |xs| >= 2 {
      var n := |xs| - 1;
      var init := xs[..n];
      var kept := DedupByKey(key, init);
      DedupStrict(key, init);
      assert init[n - 1] == xs[n - 1];
      if key(xs[n]) != key(kept[|kept| - 1]) {
        LessIsTotal(key(xs[n - 1]), key(xs[n]));
        forall j | 0 <= j < |kept| ensures Less(key(kept[j]), key(xs[n])) {
          if j < |kept| - 1 { LessIsTransitive(key(kept[j]), key(kept[|kept| - 1]), key(xs[n])); }
        }
      }
    }
  }

  /** One more element: kept, or dropped because its key is that of the last one kept. */
  lemma CoversOneMore<T>(key: T -> string, xs: seq<T>, kept: seq<T>)
    requires xs != [] && kept != [] && CoversKeys(key, xs[..|xs| - 1], kept)
    ensures CoversKeys(key, xs, kept + [xs[|xs| - 1]])
    ensures key(xs[|xs| - 1]) == key(kept[|kept| - 1]) ==> CoversKeys(key, xs, kept)
  {
    var n := |xs| - 1;
    var init, more := xs[..n], kept + [xs[n]];
    assert HasKey(key, kept, key(kept[|kept| - 1]));
    hide HasKey;
    forall i | 0 <= i < |xs| ensures HasKey(key, more, key(xs[i])) && (i < n ==> HasKey(key, kept, key(xs[i]))) {
      HasKeySnoc(key, kept, xs[n], key(xs[i]));
      if i < n { assert HasKey(key, kept, key(init[i])); }
    }
    forall j | 0 <= j < |kept| ensures kept[j] in xs { assert kept[j] in init; }
  }

  lemma {:induction false} DedupCovers<T>(key: T -> string, xs: seq<T>)
    ensures CoversKeys(key, xs, DedupByKey(key, xs))
  {
    if |xs| == 1 {
      HasKeySnoc(key, [], xs[0], key(xs[0]));
      assert [] + [xs[0]] == xs;
    } else if |xs| >= 2 {
      hide CoversKeys;
      DedupCovers(key, xs[..|xs| - 1]);
      CoversOneMore(key, xs, DedupByKey(key, xs[..|xs| - 1]));
    }
  }

  lemma CoversSameElements<T>(key: T -> string, xs: seq<T>, ys: seq<T>, zs: seq<T>)
    requires CoversKeys(key, xs, zs) && forall x :: x in xs <==> x in ys
    ensures CoversKeys(key, ys, zs)
  {
    hide HasKey;
    forall i | 0 <= i < |ys| ensures HasKey(key, zs, key(ys[i])) {
      assert ys[i] in xs;
      var k :| 0 <= k < |xs| && xs[k] == ys[i];
    }
  }

  lemma SameElements<T>(xs: seq<T>, ys: seq<T>)
    requires multiset(xs) == multiset(ys)
    ensures forall x :: x in xs <==> x in ys
  {
    assert forall x :: x in xs <==> x in multiset(xs);
    assert forall x :: x in ys <==> x in multiset(ys);
  }

  /** The result is strictly ascending by key, keeps only given elements, and keeps one for every key. */
  lemma SortDedupIsCanonical<T>(key: T -> string, xs: seq<T>)
    ensures StrictlyAscending(key, SortDedup(key, xs)) && CoversKeys(key, xs, SortDedup(key, xs))
  {
    var sorted := SortByKey(key, xs);
    SortSorts(key, xs);
    DedupStrict(key, sorted);
    DedupCovers(key, sorted);
    hide SortByKey, DedupByKey;
    SameElements(sorted, xs);
    CoversSameElements(key, sorted, xs, DedupByKey(key, sorted));
  }

  /** Strictly ascending lists of texts are determined by their elements. */
  lemma {:induction false} StrictIsUnique(xs: seq<string>, ys: seq<string>)
    requires StrictlyAscending(Itself, xs) && StrictlyAscending(Itself, ys)
    requires forall s :: s in xs <==> s in ys
    ensures xs == ys
  {
    assert xs != [] ==> xs[0] in ys;
    assert ys != [] ==> ys[0] in xs;
    if xs != [] {
      var i :| 0 <= i < |xs| && xs[i] == ys[0];
      var j :| 0 <= j < |ys| && ys[j] == xs[0];
      if i > 0 && j > 0 {
        LessIsAsymmetric(xs[0], xs[i]);
      } else if i > 0 {
        LessIsIrreflexive(xs[0]);
      } else if j > 0 {
        LessIsIrreflexive(ys[0]);
      }
      assert xs[0] == ys[0];
      forall s ensures s in xs[1..] <==> s in ys[1..] {
        if s in xs[1..] {
          var k :| 0 < k < |xs| && xs[k] == s;
          LessIsIrreflexive(s);
          assert s in ys && s != ys[0];
        }
        if s in ys[1..] {
          var k :| 0 < k < |ys| && ys[k] == s;
          LessIsIrreflexive(s);
          assert s in xs && s != xs[0];
        }
      }
      StrictIsUnique(xs[1..], ys[1..]);
      assert xs == [xs[0]] + xs[1..] && ys == [ys[0]] + ys[1..];
    }
  }

  function Itself(s: string): string { s }

  function AssetKey(a: Asset): string { a.Key() }

  function Texts(xs: seq<string>): seq<string> { SortDedup(Itself, xs) }

  lemma TextsHaveElements(xs: seq<string>)
    ensures StrictlyAscending(Itself, Texts(xs))
    ensures forall s :: s in Texts(xs) <==> s in xs
  {
    hide SortDedup;
    SortDedupIsCanonical(Itself, xs);
    forall s | s in xs ensures s in Texts(xs) {
      var i :| 0 <= i < |xs| && xs[i] == s;
      assert HasKey(Itself, Texts(xs), Itself(xs[i]));
    }
  }

  /** For texts: the same elements give the same list, whatever their order and repetitions. */
  lemma TextsDependOnElements(xs: seq<string>, ys: seq<string>)
    requires forall s :: s in xs <==> s in ys
    ensures Texts(xs) == Texts(ys)
    ensures forall s :: s in Texts(xs) <==> s in xs
  {
    hide Texts;
    TextsHaveElements(xs);
    TextsHaveElements(ys);
    StrictIsUnique(Texts(xs), Texts(ys));
  }

  // ---------- Accounts and assets of a transaction ----------

  /** Every account touched, source first, with repetitions. */
  function Participants(source: AccountId, ms: seq<Movement>): seq<AccountId> {
    if ms == [] then [source] else Participants(source, ms[..|ms| - 1]) + [ms[|ms| - 1].from, ms[|ms| - 1].to]
  }

  function AssetList(ms: seq<Movement>): seq<Asset> { Map((m: Movement) => m.asset, ms) }

  function InvolvedAccounts(tx: Transaction): seq<AccountId> { Texts(Participants(tx.source, tx.movements)) }

  predicate Touches(source: AccountId, ms: seq<Movement>, a: AccountId) {
    a == source || exists i :: 0 <= i < |ms| && (ms[i].from == a || ms[i].to == a)
  }

  lemma {:induction false} ParticipantsAre(source: AccountId, ms: seq<Movement>, a: AccountId)
    ensures a in Participants(source, ms) <==> Touches(source, ms, a)
  {
    if ms != [] {
      var n := |ms| - 1;
      ParticipantsAre(source, ms[..n], a);
      assert Touches(source, ms, a) <==> Touches(source, ms[..n], a) || ms[n].from == a || ms[n].to == a by {
        assert forall i :: 0 <= i < n ==> ms[..n][i] == ms[i];
      }
    }
  }

  /** Collects, sorts and deduplicates: accounts are listed once each in ascending order, one asset per key. */
  method AccountsAndAssets(source: AccountId, ms: seq<Movement>) returns (accounts: seq<AccountId>, assets: seq<Asset>)
    ensures accounts == Texts(Participants(source, ms)) && assets == SortDedup(AssetKey, AssetList(ms))
    ensures StrictlyAscending(Itself, accounts)
    ensures forall a :: a in accounts <==> Touches(source, ms, a)
    ensures StrictlyAscending(AssetKey, assets)
    ensures CoversKeys(AssetKey, AssetList(ms), assets)
  {
    accounts, assets := [source], [];
    for k := 0 to |ms|
      invariant accounts == Participants(source, ms[..k])
      invariant assets == AssetList(ms[..k])
    {
      accounts := accounts + [ms[k].from];
      accounts := accounts + [ms[k].to];
      assets := assets + [ms[k].asset];
      assert ms[..k + 1][..k] == ms[..k];
    }
    assert ms[..|ms|] == ms;
    hide Texts, SortDedup, Touches;
    TextsHaveElements(accounts);
    SortDedupIsCanonical(AssetKey, assets);
    forall a ensures a in Participants(source, ms) <==> Touches(source, ms, a) { ParticipantsAre(source, ms, a); }
    accounts := Texts(accounts);
    assets := SortDedup(AssetKey, assets);
  }
}
