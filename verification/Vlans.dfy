/** VLAN objects and the chained hash table that holds them. */
module Vlans {
  import opened Option
  import opened Ports
  import opened Frames
  import opened FdbSpec
  import opened Config

  class Vlan {
    const vid: Vid
    var saLearning: bool
    var members: PortVec
    var tagged: PortVec
    var flood: Flood

    constructor (vid: Vid)
      ensures this.vid == vid && Value() == NewVlan()
      ensures saLearning && members == {} && tagged == {}
      ensures forall p: Pidx :: p in flood.mc && p in flood.bc && p in flood.uc
    {
      this.vid := vid;
      this.saLearning := true;
      this.members := {};
      this.tagged := {};
      this.flood := Flood(Fill(), Fill(), Fill());
    }

    function Value(): VlanCfg
      reads this
    {
      VlanCfg(saLearning, members, tagged, flood)
    }

    method PortAdd(p: Pidx, asTagged: bool)
      modifies this
      ensures Value() == Attached(old(Value()), p, asTagged)
    {
      if asTagged {
        tagged := tagged + {p};
      }
      members := members + {p};
    }

    method PortDel(p: Pidx)
      modifies this
      ensures Value() == Detached(old(Value()), p)
    {
      members := members - {p};
      tagged := tagged - {p};
    }
  }

  const BUCKETS: nat := 256
  type Bucket = b: nat | b < BUCKETS

  type Chain = seq<Vlan>

  /** The first VLAN of a chain with the VID. */
  function InChain(chain: Chain, vid: Vid): (v: Vlan?)
    ensures v != null ==> v in chain && v.vid == vid
    ensures v == null ==> forall w :: w in chain ==> w.vid != vid
  {
    if chain == [] then null
    else if chain[0].vid == vid then chain[0]
    else InChain(chain[1..], vid)
  }

  /** The VLANs that a search for the VID looks at: those of the chain up to the first with that VID. */
  function Searched(chain: Chain, vid: Vid): Chain {
    if chain == [] then []
    else if chain[0].vid == vid then [chain[0]]
    else [chain[0]] + Searched(chain[1..], vid)
  }

  lemma {:induction false} SearchedAt(chain: Chain, vid: Vid, i: nat)
    requires i <= |chain| && forall j :: 0 <= j < i ==> chain[j].vid != vid
    ensures Searched(chain, vid) == chain[..i] + Searched(chain[i..], vid)
  {
    if i > 0 {
      SearchedAt(chain[1..], vid, i - 1);
      assert chain[..i] == [chain[0]] + chain[1..][..i - 1] && chain[1..][i - 1..] == chain[i..];
    }
  }

  /** The first of the two is not behind the second. */
  ghost predicate InOrder(chain: Chain, v: Vlan, w: Vlan) {
    exists i, j :: 0 <= i <= j < |chain| && chain[i] == v && chain[j] == w
  }

  function Without(chain: Chain, v: Vlan): (r: Chain)
    requires forall i, j :: 0 <= i < j < |chain| ==> chain[i] != chain[j]
    ensures forall i :: 0 <= i < |r| ==> r[i] in chain && r[i] != v
    ensures forall i :: 0 <= i < |chain| && chain[i] != v ==> chain[i] in r
    ensures forall i, j :: 0 <= i < j < |r| ==> r[i] != r[j]
  {
    if chain == [] then []
    else if chain[0] == v then chain[1..]
    else
      var rest := Without(chain[1..], v);
      assert forall i :: 0 <= i < |rest| ==> rest[i] in rest;
      [chain[0]] + rest
  }

  /** Every VLAN sits once, in the bucket of its VID, and is the only one with that VID. */
  ghost predicate WellHashed(hash: Vid -> Bucket, buckets: seq<Chain>, index: map<Vid, Vlan>) {
    && |buckets| == BUCKETS
    && (forall b: Bucket, i :: 0 <= i < |buckets[b]| ==> Placed(hash, index, b, buckets[b][i]))
    && (forall vid :: vid in index ==> index[vid].vid == vid && index[vid] in buckets[hash(vid)])
    && (forall b: Bucket, i, j :: 0 <= i < j < |buckets[b]| ==> buckets[b][i] != buckets[b][j])
  }

  predicate Placed(hash: Vid -> Bucket, index: map<Vid, Vlan>, b: Bucket, v: Vlan) {
    hash(v.vid) == b && v.vid in index && index[v.vid] == v
  }

  lemma InsertKeepsHashing(hash: Vid -> Bucket, buckets: seq<Chain>, index: map<Vid, Vlan>, v: Vlan)
    requires WellHashed(hash, buckets, index) && v.vid !in index
    ensures var h := hash(v.vid);
            WellHashed(hash, buckets[h := [v] + buckets[h]], index[v.vid := v])
  {
    var h := hash(v.vid);
    var buckets', index' := buckets[h := [v] + buckets[h]], index[v.vid := v];
    forall b: Bucket, i | 0 <= i < |buckets'[b]| ensures Placed(hash, index', b, buckets'[b][i]) {
      if b == h && i > 0 {
        assert buckets'[b][i] == buckets[b][i - 1];
      }
    }
    forall vid | vid in index' ensures index'[vid] in buckets'[hash(vid)] {
      if vid == v.vid {
        assert buckets'[h][0] == v;
      }
    }
    forall i | 0 <= i < |buckets[h]| ensures buckets[h][i] != v {
      assert Placed(hash, index, h, buckets[h][i]);
    }
  }

  lemma RemoveKeepsHashing(hash: Vid -> Bucket, buckets: seq<Chain>, index: map<Vid, Vlan>, v: Vlan)
    requires WellHashed(hash, buckets, index) && v.vid in index && index[v.vid] == v
    ensures var h := hash(v.vid);
            WellHashed(hash, buckets[h := Without(buckets[h], v)], index - {v.vid})
  {
    var h := hash(v.vid);
    var buckets', index' := buckets[h := Without(buckets[h], v)], index - {v.vid};
    forall b: Bucket, i | 0 <= i < |buckets'[b]| ensures Placed(hash, index', b, buckets'[b][i]) {
      assert buckets'[b][i] in buckets[b];
      var j :| 0 <= j < |buckets[b]| && buckets[b][j] == buckets'[b][i];
      assert Placed(hash, index, b, buckets[b][j]);
    }
  }

  class VlanTable {
    const hash: Vid -> Bucket
    var buckets: seq<Chain>
    /** What the table means: a finite map from VIDs to VLANs. */
    ghost var index: map<Vid, Vlan>

    ghost predicate Valid()
      reads this
    {
      WellHashed(hash, buckets, index)
    }

    ghost function View(): map<Vid, VlanCfg>
      reads this, index.Values
    {
      map vid | vid in index :: index[vid].Value()
    }

    constructor (hash: Vid -> Bucket)
      ensures Valid() && index == map[] && this.hash == hash
    {
      this.hash := hash;
      this.buckets := seq(BUCKETS, _ => []);
      this.index := map[];
    }

    /** Searching one bucket is searching the whole table, and a VID occurs in at most one place of it. */
    lemma OneBucketIsEnough(vid: Vid)
      requires Valid()
      ensures InChain(buckets[hash(vid)], vid) == if vid in index then index[vid] else null
      ensures (exists b: Bucket, i :: 0 <= i < |buckets[b]| && buckets[b][i].vid == vid) <==> vid in index
      ensures forall b: Bucket, c: Bucket, i, j ::
                0 <= i < |buckets[b]| && 0 <= j < |buckets[c]| && buckets[b][i].vid == vid && buckets[c][j].vid == vid
                ==> b == c && i == j
    {
      forall b: Bucket, c: Bucket, i, j |
        0 <= i < |buckets[b]| && 0 <= j < |buckets[c]| && buckets[b][i].vid == vid && buckets[c][j].vid == vid
        ensures b == c && i == j
      {
        assert buckets[b][i] in buckets[b] && buckets[c][j] in buckets[c];
      }
      if vid in index {
        var h := hash(vid);
        var i :| 0 <= i < |buckets[h]| && buckets[h][i] == index[vid];
        assert buckets[h][i].vid == vid;
      }
      if b: Bucket, i :| 0 <= i < |buckets[b]| && buckets[b][i].vid == vid {
        assert buckets[b][i] in buckets[b];
      }
    }

    /** A VLAN that is still hashed is looked at by exactly the searches that go to its bucket and either
        find nothing there or nothing before it. So after a deletion as written, which frees it, those
        searches read freed memory. */
    lemma StaleVlanIsRead(v: Vlan, vid: Vid)
      requires Valid() && v.vid in index && index[v.vid] == v
      ensures v in Searched(buckets[hash(vid)], vid)
          <==> hash(vid) == hash(v.vid) && (vid in index ==> InOrder(buckets[hash(vid)], v, index[vid]))
    {
      var chain := buckets[hash(vid)];
      if vid in index {
        var k :| 0 <= k < |chain| && chain[k] == index[vid];
        OneBucketIsEnough(vid);
        SearchedAt(chain, vid, k);
        assert Searched(chain[k..], vid) == [chain[k]];
        assert Searched(chain, vid) == chain[..k + 1];
      } else {
        OneBucketIsEnough(vid);
        SearchedAt(chain, vid, |chain|);
        assert Searched(chain, vid) == chain;
      }
      if v in chain {
        var i :| 0 <= i < |chain| && chain[i] == v;
        assert Placed(hash, index, hash(vid), chain[i]);
      }
    }

    /** The loop over one chain; `read` are the VLANs it looks at. */
    method Find(vid: Vid) returns (vlan: Vlan?, ghost read: Chain)
      requires Valid()
      ensures vlan == if vid in index then index[vid] else null
      ensures read == Searched(buckets[hash(vid)], vid)
    {
      var chain := buckets[hash(vid)];
      read := [];
      var i := 0;
      while i < |chain|
        invariant 0 <= i <= |chain|
        invariant forall j :: 0 <= j < i ==> chain[j].vid != vid
        invariant read == chain[..i]
      {
        read := read + [chain[i]];
        if chain[i].vid == vid {
          assert chain[i] in chain;
          SearchedAt(chain, vid, i);
          assert Searched(chain[i..], vid) == [chain[i]];
          return chain[i], read;
        }
        i := i + 1;
      }
      SearchedAt(chain, vid, i);
      vlan := null;
    }

    /** Adds a VLAN unless its VID is taken; `alloc` says whether memory was available. */
    method New(vid: Vid, alloc: bool) returns (status: Status, vlan: Vlan?)
      requires Valid()
      modifies this
      ensures Valid()
      ensures status == if vid in old(index) then Failure(EBUSY) else if !alloc then Failure(ENOMEM) else Success
      ensures status.Success? ==> vlan != null && fresh(vlan) && vlan.vid == vid && vlan.Value() == NewVlan()
                                  && index == old(index)[vid := vlan]
      ensures status.Failure? ==> vlan == null && index == old(index)
      ensures View() == if status.Success? then old(View())[vid := NewVlan()] else old(View())
    {
      ghost var read;
      vlan, read := Find(vid);
      if vlan != null {
        return Failure(EBUSY), null;
      }
      if !alloc {
        return Failure(ENOMEM), null;
      }
      vlan := new Vlan(vid);
      Insert(vlan);
      status := Success;
    }

    /** Puts a VLAN at the head of its chain. */
    method Insert(vlan: Vlan)
      requires Valid() && vlan.vid !in index
      modifies this
      ensures Valid() && index == old(index)[vlan.vid := vlan] && View() == old(View())[vlan.vid := vlan.Value()]
    {
      InsertKeepsHashing(hash, buckets, index, vlan);
      var h := hash(vlan.vid);
      buckets := buckets[h := [vlan] + buckets[h]];
      index := index[vlan.vid := vlan];
    }

    /** Takes a VLAN out of its chain. */
    method Unhash(vlan: Vlan)
      requires Valid() && vlan.vid in index && index[vlan.vid] == vlan
      modifies this
      ensures Valid() && index == old(index) - {vlan.vid} && View() == old(View()) - {vlan.vid}
    {
      RemoveKeepsHashing(hash, buckets, index, vlan);
      var h := hash(vlan.vid);
      buckets := buckets[h := Without(buckets[h], vlan)];
      index := index - {vlan.vid};
    }
  }
}
