/** The founding genesis document: canonical in the set of validator manifests. */
module Genesis {
  import opened Sorting

  /** An accepted manifest; the key is kept without its `ed25519:` prefix, which every
      accepted manifest carries. */
  datatype Manifest = Manifest(validatorId: string, address: string, publicKey: string)

  datatype Validator = Validator(address: string, name: string, power: nat, keyType: string, keyValue: string)

  datatype Document = Document(genesisTime: string, chainId: string, initialHeight: nat, validators: seq<Validator>)

  datatype Rejection = TooFewManifests | DuplicateValidatorId | DuplicatePublicKey

  datatype Built = Ok(document: Document) | Err(reason: Rejection)

  // ---------- Code-point order on names ----------

  predicate StringLess(a: string, b: string) {
    if a == [] then b != []
    else if b == [] then false
    else a[0] < b[0] || (a[0] == b[0] && StringLess(a[1..], b[1..]))
  }

  lemma {:induction false} StringLessIrreflexive(a: string)
    ensures !StringLess(a, a)
  {
    if a != [] {
      StringLessIrreflexive(a[1..]);
    }
  }

  lemma {:induction false} StringLessTransitive(a: string, b: string, c: string)
    requires StringLess(a, b) && StringLess(b, c)
    ensures StringLess(a, c)
  {
    if a != [] && a[0] == b[0] == c[0] {
      StringLessTransitive(a[1..], b[1..], c[1..]);
    }
  }

  lemma {:induction false} StringLessTotal(a: string, b: string)
    ensures a == b || StringLess(a, b) || StringLess(b, a)
  {
    if a != [] && b != [] && a[0] == b[0] {
      StringLessTotal(a[1..], b[1..]);
      assert a == [a[0]] + a[1..] && b == [b[0]] + b[1..];
    }
  }

  /** `a` and `b` agree before `k`, where `a` ends or has the lower character. */
  predicate LowerAt(a: string, b: string, k: nat) {
    k <= |a| && k < |b| && a[..k] == b[..k] && (k == |a| || a[k] < b[k])
  }

  lemma {:induction false} FirstDifference(a: string, b: string) returns (k: nat)
    requires StringLess(a, b)
    ensures LowerAt(a, b, k)
  {
    if a == [] || a[0] < b[0] {
      k := 0;
    } else {
      var rest := FirstDifference(a[1..], b[1..]);
      k := rest + 1;
      assert a[..k] == [a[0]] + a[1..][..rest] && b[..k] == [b[0]] + b[1..][..rest];
    }
  }

  lemma {:induction false} LowerIsLess(a: string, b: string, k: nat)
    requires LowerAt(a, b, k)
    ensures StringLess(a, b)
  {
    if k > 0 {
      assert a[0] == a[..k][0] == b[..k][0] == b[0];
      assert a[1..][..k - 1] == a[..k][1..] && b[1..][..k - 1] == b[..k][1..];
      LowerIsLess(a[1..], b[1..], k - 1);
    }
  }

  /** Names are compared by their first difference, a proper prefix coming first. */
  lemma StringLessExactly(a: string, b: string)
    ensures StringLess(a, b) <==> exists k :: LowerAt(a, b, k)
  {
    if StringLess(a, b) {
      var k := FirstDifference(a, b);
    }
    if k :| LowerAt(a, b, k) {
      LowerIsLess(a, b, k);
    }
  }

  function ById(): (Manifest, Manifest) -> bool {
    (a: Manifest, b: Manifest) => StringLess(a.validatorId, b.validatorId)
  }

  ghost predicate UniqueIds(ms: seq<Manifest>) {
    forall i, j :: 0 <= i < j < |ms| ==> ms[i].validatorId != ms[j].validatorId
  }

  ghost predicate UniqueKeys(ms: seq<Manifest>) {
    forall i, j :: 0 <= i < j < |ms| ==> ms[i].publicKey != ms[j].publicKey
  }

  lemma ByIdIsOrder(ms: seq<Manifest>)
    requires UniqueIds(ms)
    ensures StrictOrder(ById(), Elements(ms)) && Distinct(ms)
  {
    var lt := ById();
    forall a | a in Elements(ms)
      ensures !lt(a, a)
    {
      StringLessIrreflexive(a.validatorId);
    }
    forall a, b | a in Elements(ms) && b in Elements(ms) && a != b
      ensures lt(a, b) || lt(b, a)
    {
      var i :| 0 <= i < |ms| && ms[i] == a;
      var j :| 0 <= j < |ms| && ms[j] == b;
      StringLessTotal(a.validatorId, b.validatorId);
    }
    forall a, b, c | a in Elements(ms) && b in Elements(ms) && c in Elements(ms) && lt(a, b) && lt(b, c)
      ensures lt(a, c)
    {
      StringLessTransitive(a.validatorId, b.validatorId, c.validatorId);
    }
  }

  // ---------- Building ----------

  function AsValidator(m: Manifest): Validator {
    Validator(m.address, m.validatorId, 1, "tendermint/PubKeyEd25519", m.publicKey)
  }

  function AsValidators(ms: seq<Manifest>): seq<Validator> {
    seq(|ms|, i requires 0 <= i < |ms| => AsValidator(ms[i]))
  }

  /** `build`, up to writing the file; chain ID and time have been checked. */
  function Build(ms: seq<Manifest>, chainId: string, genesisTime: string): Built {
    if |ms| < 4 then Err(TooFewManifests)
    else if |set m | m in ms :: m.validatorId| != |ms| then Err(DuplicateValidatorId)
    else if |set m | m in ms :: m.publicKey| != |ms| then Err(DuplicatePublicKey)
    else Ok(Document(genesisTime, chainId, 1, AsValidators(Sort(ById(), ms))))
  }

  ghost function Ids(ms: seq<Manifest>): seq<string> {
    seq(|ms|, i requires 0 <= i < |ms| => ms[i].validatorId)
  }

  ghost function PublicKeys(ms: seq<Manifest>): seq<string> {
    seq(|ms|, i requires 0 <= i < |ms| => ms[i].publicKey)
  }

  /** The set-size tests are exactly the uniqueness of IDs and of keys. */
  lemma UniquenessTests(ms: seq<Manifest>)
    ensures |set m | m in ms :: m.validatorId| == |ms| <==> UniqueIds(ms)
    ensures |set m | m in ms :: m.publicKey| == |ms| <==> UniqueKeys(ms)
  {
    assert (set m | m in ms :: m.validatorId) == Elements(Ids(ms)) by {
      forall i | 0 <= i < |ms|
        ensures Ids(ms)[i] in (set m | m in ms :: m.validatorId)
      {
        assert ms[i] in ms;
      }
      forall m | m in ms
        ensures m.validatorId in Ids(ms)
      {
        var i :| 0 <= i < |ms| && ms[i] == m;
        assert Ids(ms)[i] == m.validatorId;
      }
    }
    assert (set m | m in ms :: m.publicKey) == Elements(PublicKeys(ms)) by {
      forall i | 0 <= i < |ms|
        ensures PublicKeys(ms)[i] in (set m | m in ms :: m.publicKey)
      {
        assert ms[i] in ms;
      }
      forall m | m in ms
        ensures m.publicKey in PublicKeys(ms)
      {
        var i :| 0 <= i < |ms| && ms[i] == m;
        assert PublicKeys(ms)[i] == m.publicKey;
      }
    }
    DistinctCardinality(Ids(ms));
    DistinctCardinality(PublicKeys(ms));
    assert UniqueIds(ms) <==> Distinct(Ids(ms)) by {
      assert forall i :: 0 <= i < |ms| ==> Ids(ms)[i] == ms[i].validatorId;
    }
    assert UniqueKeys(ms) <==> Distinct(PublicKeys(ms)) by {
      assert forall i :: 0 <= i < |ms| ==> PublicKeys(ms)[i] == ms[i].publicKey;
    }
  }

  lemma SortedManifests(ms: seq<Manifest>)
    requires UniqueIds(ms)
    ensures Elements(Sort(ById(), ms)) == Elements(ms) && StrictlySorted(ById(), Sort(ById(), ms))
    ensures |Sort(ById(), ms)| == |ms|
  {
    ByIdIsOrder(ms);
    SortSorts(ById(), ms);
  }

  /** A document is built exactly for four or more manifests with unique IDs and keys;
      it has one power-1 validator per manifest, by strictly increasing name. */
  lemma BuildSpec(ms: seq<Manifest>, chainId: string, genesisTime: string)
    ensures Build(ms, chainId, genesisTime).Ok? <==> |ms| >= 4 && UniqueIds(ms) && UniqueKeys(ms)
    ensures Build(ms, chainId, genesisTime) == Err(TooFewManifests) <==> |ms| < 4
    ensures Build(ms, chainId, genesisTime) == Err(DuplicateValidatorId) <==> |ms| >= 4 && !UniqueIds(ms)
    ensures Build(ms, chainId, genesisTime).Ok? ==>
              var document := Build(ms, chainId, genesisTime).document;
              var vs := document.validators;
              && document.chainId == chainId && document.genesisTime == genesisTime && document.initialHeight == 1
              && |vs| == |ms|
              && (forall i, j :: 0 <= i < j < |vs| ==> StringLess(vs[i].name, vs[j].name))
              && (forall i :: 0 <= i < |vs| ==> vs[i].power == 1 && vs[i].keyType == "tendermint/PubKeyEd25519")
              && (forall i :: 0 <= i < |vs| ==> Manifest(vs[i].name, vs[i].address, vs[i].keyValue) in ms)
              && (forall m :: m in ms ==>
                    exists i :: 0 <= i < |vs| && m == Manifest(vs[i].name, vs[i].address, vs[i].keyValue))
  {
    UniquenessTests(ms);
    if Build(ms, chainId, genesisTime).Ok? {
      SortedManifests(ms);
      var sorted := Sort(ById(), ms);
      var vs := AsValidators(sorted);
      forall i, j | 0 <= i < j < |vs|
        ensures StringLess(vs[i].name, vs[j].name)
      {
        assert ById()(sorted[i], sorted[j]);
      }
      forall m | m in ms
        ensures exists i :: 0 <= i < |vs| && m == Manifest(vs[i].name, vs[i].address, vs[i].keyValue)
      {
        assert m in Elements(sorted);
        var i :| 0 <= i < |sorted| && sorted[i] == m;
        assert vs[i] == AsValidator(m);
      }
      forall i | 0 <= i < |vs|
        ensures Manifest(vs[i].name, vs[i].address, vs[i].keyValue) in ms
      {
        assert sorted[i] in Elements(sorted);
        assert vs[i] == AsValidator(sorted[i]);
      }
    }
  }

  /** The result, rejection included, does not depend on the order of the manifests. */
  lemma BuildIsOrderIndependent(ms: seq<Manifest>, ns: seq<Manifest>, chainId: string, genesisTime: string)
    requires multiset(ms) == multiset(ns)
    ensures Build(ms, chainId, genesisTime) == Build(ns, chainId, genesisTime)
  {
    assert |ms| == |multiset(ms)| == |multiset(ns)| == |ns|;
    forall m
      ensures m in ms <==> m in ns
    {
      assert m in ms <==> m in multiset(ms);
      assert m in ns <==> m in multiset(ns);
    }
    assert Elements(ms) == Elements(ns);
    assert (set m | m in ms :: m.validatorId) == (set m | m in ns :: m.validatorId);
    assert (set m | m in ms :: m.publicKey) == (set m | m in ns :: m.publicKey);
    UniquenessTests(ms);
    UniquenessTests(ns);
    if UniqueIds(ms) {
      SortedManifests(ms);
      SortedManifests(ns);
      ByIdIsOrder(ms);
      SortedUnique(ById(), Sort(ById(), ms), Sort(ById(), ns));
    }
  }
}
