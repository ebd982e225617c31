/** Two servers and a digest that meet the hypotheses of the convergence theorems. */
module SectorExample {
  import opened Base
  import opened Siblings
  import opened Serialization
  import opened MerkleTree
  import opened DiffBuckets
  import opened Replica
  import opened AntiEntropy
  import opened Convergence

  const KEY: Str := [7]
  const OBJ: Object := Object([9], Context(map[[1] := 1], 5, []))

  /** One sector with one bucket. */
  const AT: Placement := (key: Str) => (0, 0)

  /** The neighbour holds a key that the other server lacks. */
  const NEIGHBOUR: Server := Server(map[KEY := [OBJ]], [[[KEY]]], {}, map[])
  const LACKING: Server := Server(map[], [[[]]], {}, map[])

  /** A digest that tells the empty bucket from everything else. */
  ghost function Tells(x: Str): Digest {
    if x == LeafBytes([], map[]) then seq(32, _ => 0) else seq(32, _ => 1)
  }

  lemma TellsEmpty(x: Str, y: Str)
    requires x == LeafBytes([], map[]) || y == LeafBytes([], map[]) || x == y
    ensures Tells(x) == Tells(y) ==> x == y
  {
    hide LeafBytes;
    var zeros: Str, ones: Str := seq(32, _ => 0), seq(32, _ => 1);
    assert zeros[0] == 0 && ones[0] == 1;
  }

  lemma StoresGood()
    ensures StoreOk(AT, NEIGHBOUR) && StoreOk(AT, LACKING)
  {
    forall place: (nat, nat), key: Str | InIndex(NEIGHBOUR.index, place)
      ensures multiset(Bucket(NEIGHBOUR.index, place))[key] == if key in NEIGHBOUR.kv && AT(key) == place then 1 else 0
    {
      assert Bucket(NEIGHBOUR.index, place) == [KEY];
    }
  }

  lemma OneBucket(s: Server)
    requires |s.index| == 1 && |s.index[0]| == 1
    ensures Streams(Tells, SnapshotOf(s, 0)) == {BucketBytes(SnapshotOf(s, 0), 0)}
  {
    var snap := SnapshotOf(s, 0);
    SummaryIsHeapOrder(Tells, snap, 0);
    assert |Summary(Tells, snap)| == 1;
    hide BucketBytes, Summary, InternalBytes;
  }

  lemma EmptyBucket()
    ensures BucketBytes(SnapshotOf(LACKING, 0), 0) == LeafBytes([], map[])
  {
    assert SectorKeys([[]]) == {};
    assert SortNames([]) == [];
  }

  lemma BothFit()
    ensures SectorFits(NEIGHBOUR, 0) && SectorFits(LACKING, 0)
  {
    assert SortNames([]) == [] && InsertName([], KEY) == [KEY] && [KEY][1..] == [];
    assert SortNames([KEY]) == [KEY];
    assert Fits(OBJ);
    assert KEY in [[KEY]][0];
  }

  /** Such servers exist, and one exchange gives the lacking server the key. */
  lemma ReadyExists()
    ensures Ready(Tells, AT, LACKING, NEIGHBOUR, 0, 0)
    ensures SummaryPair(Tells, SnapshotOf(NEIGHBOUR, 0), SnapshotOf(LACKING, 0)).Sized()
    ensures KEY in Reconciled(Tells, AT, LACKING, NEIGHBOUR, 0).0.kv
  {
    StoresGood();
    BothFit();
    OneBucket(NEIGHBOUR);
    OneBucket(LACKING);
    EmptyBucket();
    var streams := Streams(Tells, SnapshotOf(NEIGHBOUR, 0)) + Streams(Tells, SnapshotOf(LACKING, 0)) + {LeafBytes([], map[])};
    hide Streams, BucketBytes, LeafBytes, Tells, SectorFits, StoreOk, Summary, Reconciled;
    forall x, y | x in streams && y in streams ensures Tells(x) == Tells(y) ==> x == y { TellsEmpty(x, y); }
    assert Pow2(0) == 1;
    RoundConverges(Tells, AT, LACKING, NEIGHBOUR, 0, 0, KEY);
  }
}
