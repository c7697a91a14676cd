/** The router's configuration tables, what one add or remove command does to them, and what a list of
    removals leaves of a list of additions. */
module RouterTables {
  datatype Path =
    | Wireguard | Vlan | InterfaceList | Vrf | BridgeVlan | ListMember
    | IpAddress | FirewallFilter | IpRoute | WireguardPeers

  datatype Attr =
    | Name | ListenPort | Mtu | Interface | VlanId | Interfaces | Bridge | VlanIds | Tagged | List
    | Address | Chain | Action | DstPort | InInterfaceList | OutInterfaceList | Protocol
    | DstAddress | Gateway | RoutingTable | PublicKey | AllowedAddress

  type Record = map<Attr, string>

  /** A record in one table, or the filter a removal looks for there. */
  datatype Entry = Entry(path: Path, attrs: Record)

  predicate HasAllTables(t: map<Path, seq<Record>>) { forall p: Path :: p in t }

  /** Every table of the router, each in its own order. */
  type Tables = t: map<Path, seq<Record>> | HasAllTables(t)
    witness map p: Path | true :: []

  // ----- Commands

  predicate Matches(r: Record, filter: Record) { forall k | k in filter :: k in r && r[k] == filter[k] }

  predicate HasMatch(s: seq<Record>, filter: Record) { exists r :: r in s && Matches(r, filter) }

  function Add(t: Tables, e: Entry): Tables { t[e.path := t[e.path] + [e.attrs]] }

  function RemoveFirst(s: seq<Record>, filter: Record): seq<Record> {
    if s == [] then [] else if Matches(s[0], filter) then s[1..] else [s[0]] + RemoveFirst(s[1..], filter)
  }

  /** Print with a filter, then remove the first record printed, if any. */
  function Delete(t: Tables, f: Entry): Tables { t[f.path := RemoveFirst(t[f.path], f.attrs)] }

  function AddAll(t: Tables, es: seq<Entry>): Tables {
    if es == [] then t else Add(AddAll(t, es[..|es| - 1]), es[|es| - 1])
  }

  /** Removals from the last filter to the first, each carried out only if `ok` says that its two
      commands succeed. */
  function RemoveAll(t: Tables, fs: seq<Entry>, ok: nat -> bool): Tables {
    if fs == [] then t
    else
      var i := |fs| - 1;
      RemoveAll(if ok(i) then Delete(t, fs[i]) else t, fs[..i], ok)
  }

  predicate Hits(f: Entry, e: Entry) { f.path == e.path && Matches(e.attrs, f.attrs) }

  predicate NoneMatches(t: Tables, f: Entry) { !HasMatch(t[f.path], f.attrs) }

  /** Nothing in the tables matches any of the filters. */
  predicate Clean(t: Tables, fs: seq<Entry>) { forall i | 0 <= i < |fs| :: NoneMatches(t, fs[i]) }

  // ----- Undoing a partly applied list of additions

  lemma {:induction false} RemoveFirstMisses(s: seq<Record>, filter: Record)
    requires !HasMatch(s, filter)
    ensures RemoveFirst(s, filter) == s
  {
    if s != [] {
      assert s[0] in s;
      assert !HasMatch(s[1..], filter) by { assert forall r :: r in s[1..] ==> r in s; }
      RemoveFirstMisses(s[1..], filter);
    }
  }

  lemma {:induction false} RemoveFirstAt(s: seq<Record>, i: nat, filter: Record)
    requires i < |s| && Matches(s[i], filter) && forall j | 0 <= j < i :: !Matches(s[j], filter)
    ensures RemoveFirst(s, filter) == s[..i] + s[i + 1..]
  {
    if i > 0 {
      RemoveFirstAt(s[1..], i - 1, filter);
      assert s[1..][..i - 1] == s[1..i] && s[1..][i..] == s[i + 1..];
      assert [s[0]] + (s[1..i] + s[i + 1..]) == s[..i] + s[i + 1..];
    }
  }

  lemma {:induction false} RemoveFirstAtEnd(s: seq<Record>, r: Record, filter: Record)
    ensures HasMatch(s, filter) ==> RemoveFirst(s + [r], filter) == RemoveFirst(s, filter) + [r]
    ensures !HasMatch(s, filter) && Matches(r, filter) ==> RemoveFirst(s + [r], filter) == s
  {
    if s == [] {
      assert s + [r] == [r];
    } else {
      assert (s + [r])[1..] == s[1..] + [r];
      assert HasMatch(s, filter) <==> Matches(s[0], filter) || HasMatch(s[1..], filter) by {
        assert s == [s[0]] + s[1..];
        assert forall x :: x in s <==> x == s[0] || x in s[1..];
      }
      RemoveFirstAtEnd(s[1..], r, filter);
    }
  }

  lemma HasMatchAtEnd(s: seq<Record>, r: Record, filter: Record)
    ensures HasMatch(s + [r], filter) <==> HasMatch(s, filter) || Matches(r, filter)
  {
    assert r in s + [r];
    assert forall x :: x in s + [r] <==> x in s || x == r;
  }

  lemma {:induction false} MatchesAfterAdding(t: Tables, es: seq<Entry>, f: Entry)
    ensures NoneMatches(AddAll(t, es), f) <==> NoneMatches(t, f) && forall e | e in es :: !Hits(f, e)
  {
    if es != [] {
      var es', e := es[..|es| - 1], es[|es| - 1];
      MatchesAfterAdding(t, es', f);
      assert es == es' + [e];
      assert (forall x | x in es :: !Hits(f, x)) <==> (forall x | x in es' :: !Hits(f, x)) && !Hits(f, e);
      var before := AddAll(t, es');
      if e.path == f.path {
        assert AddAll(t, es)[f.path] == before[f.path] + [e.attrs];
        HasMatchAtEnd(before[f.path], e.attrs, f.attrs);
      }
    }
  }

  lemma DeleteMisses(t: Tables, f: Entry)
    requires NoneMatches(t, f)
    ensures Delete(t, f) == t
  {
    RemoveFirstMisses(t[f.path], f.attrs);
  }

  lemma DeleteLast(t: Tables, e: Entry, f: Entry)
    requires NoneMatches(t, f) && Hits(f, e)
    ensures Delete(Add(t, e), f) == t
  {
    RemoveFirstAtEnd(t[f.path], e.attrs, f.attrs);
    assert Delete(Add(t, e), f)[f.path] == t[f.path];
  }

  lemma DeleteBeforeLast(t: Tables, e: Entry, f: Entry)
    requires !NoneMatches(t, f)
    ensures Delete(Add(t, e), f) == Add(Delete(t, f), e)
  {
    RemoveFirstAtEnd(t[f.path], e.attrs, f.attrs);
    assert e.path == f.path ==> Delete(Add(t, e), f)[f.path] == Delete(t, f)[f.path] + [e.attrs];
  }

  lemma AddAllWithout(t: Tables, es: seq<Entry>, p: nat)
    requires p < |es| - 1
    ensures var es' := es[..|es| - 1];
            AddAll(t, es[..p] + es[p + 1..]) == Add(AddAll(t, es'[..p] + es'[p + 1..]), es[|es| - 1])
  {
    var rest := es[..p] + es[p + 1..];
    assert rest[..|rest| - 1] == es[..|es| - 1][..p] + es[..|es| - 1][p + 1..];
    assert rest[|rest| - 1] == es[|es| - 1];
  }

  /** Where nothing matches, removals change nothing. */
  lemma {:induction false} CleanStays(t: Tables, fs: seq<Entry>, ok: nat -> bool)
    requires Clean(t, fs)
    ensures RemoveAll(t, fs, ok) == t
  {
    if fs != [] {
      DeleteMisses(t, fs[|fs| - 1]);
      CleanStays(t, fs[..|fs| - 1], ok);
    }
  }

  /** A removal that can only hit one of the additions takes out exactly that one. */
  lemma {:induction false} DeleteAdded(t: Tables, es: seq<Entry>, p: nat, f: Entry)
    requires p < |es| && Hits(f, es[p]) && NoneMatches(t, f)
    requires forall j | 0 <= j < p :: !Hits(f, es[j])
    ensures Delete(AddAll(t, es), f) == AddAll(t, es[..p] + es[p + 1..])
  {
    var es', e := es[..|es| - 1], es[|es| - 1];
    MatchesAfterAdding(t, es', f);
    if p == |es| - 1 {
      assert es[..p] + es[p + 1..] == es';
      DeleteLast(AddAll(t, es'), e, f);
    } else {
      assert es'[p] in es';
      DeleteBeforeLast(AddAll(t, es'), e, f);
      DeleteAdded(t, es', p, f);
      AddAllWithout(t, es, p);
    }
  }

  /** Removal `i` can only ever take out addition `i`. */
  predicate Paired(es: seq<Entry>, fs: seq<Entry>) {
    |es| == |fs| && forall i, j | 0 <= i < |fs| && 0 <= j < |es| && Hits(fs[i], es[j]) :: i == j
  }

  predicate Removes(es: seq<Entry>, fs: seq<Entry>, ok: nat -> bool, i: nat)
    requires i < |es| == |fs|
  {
    ok(i) && Hits(fs[i], es[i])
  }

  /** The additions among the first `k` that their own removal does not take out. */
  function Leftover(es: seq<Entry>, fs: seq<Entry>, ok: nat -> bool, k: nat): seq<Entry>
    requires k <= |es| == |fs|
  {
    if k == 0 then []
    else Leftover(es, fs, ok, k - 1) + if Removes(es, fs, ok, k - 1) then [] else [es[k - 1]]
  }

  lemma KeepOne(t: Tables, es: seq<Entry>, fs: seq<Entry>, ok: nat -> bool, i: nat, tail: seq<Entry>)
    requires Paired(es, fs) && Clean(t, fs) && i < |es| && !Removes(es, fs, ok, i)
    requires forall e | e in tail :: !Hits(fs[i], e)
    ensures ok(i) ==> Delete(AddAll(t, es[..i + 1] + tail), fs[i]) == AddAll(t, es[..i + 1] + tail)
  {
    if ok(i) {
      var now := es[..i + 1] + tail;
      forall e | e in now ensures !Hits(fs[i], e) {
        if e !in tail {
          var j :| 0 <= j <= i && es[j] == e;
        }
      }
      MatchesAfterAdding(t, now, fs[i]);
      DeleteMisses(AddAll(t, now), fs[i]);
    }
  }

  function Kept(es: seq<Entry>, fs: seq<Entry>, ok: nat -> bool, i: nat): seq<Entry>
    requires i < |es| == |fs|
  {
    if Removes(es, fs, ok, i) then [] else [es[i]]
  }

  lemma SweepStep(t: Tables, es: seq<Entry>, fs: seq<Entry>, ok: nat -> bool, i: nat, tail: seq<Entry>)
    requires Paired(es, fs) && Clean(t, fs) && i < |es|
    requires forall e | e in tail :: !Hits(fs[i], e)
    ensures RemoveAll(AddAll(t, es[..i + 1] + tail), fs[..i + 1], ok)
         == RemoveAll(AddAll(t, es[..i] + (Kept(es, fs, ok, i) + tail)), fs[..i], ok)
  {
    var now := es[..i + 1] + tail;
    assert fs[..i + 1][..i] == fs[..i] && fs[..i + 1][i] == fs[i];
    assert RemoveAll(AddAll(t, now), fs[..i + 1], ok)
        == RemoveAll(if ok(i) then Delete(AddAll(t, now), fs[i]) else AddAll(t, now), fs[..i], ok);
    if Removes(es, fs, ok, i) {
      DeleteAdded(t, now, i, fs[i]);
      assert now[..i] + now[i + 1..] == es[..i] + ([] + tail);
    } else {
      KeepOne(t, es, fs, ok, i, tail);
      assert now == es[..i] + ([es[i]] + tail);
    }
  }

  /** What addition `i` leaves is none of the earlier removals' business. */
  lemma KeptIsMissed(es: seq<Entry>, fs: seq<Entry>, ok: nat -> bool, i: nat, tail: seq<Entry>)
    requires Paired(es, fs) && i < |es| && forall k, e | 0 <= k <= i && e in tail :: !Hits(fs[k], e)
    ensures forall k, e | 0 <= k < i && e in Kept(es, fs, ok, i) + tail :: !Hits(fs[k], e)
  {
    forall k, e | 0 <= k < i && e in Kept(es, fs, ok, i) + tail ensures !Hits(fs[k], e) {
      assert e in tail || e == es[i];
    }
  }

  lemma Regroup(a: seq<Entry>, b: seq<Entry>, c: seq<Entry>)
    ensures a + b + c == a + (b + c)
  {
  }

  lemma {:induction false} Sweep(t: Tables, es: seq<Entry>, fs: seq<Entry>, ok: nat -> bool, m: nat, tail: seq<Entry>)
    requires Paired(es, fs) && Clean(t, fs) && m <= |es|
    requires forall i, e | 0 <= i < m && e in tail :: !Hits(fs[i], e)
    ensures RemoveAll(AddAll(t, es[..m] + tail), fs[..m], ok) == AddAll(t, Leftover(es, fs, ok, m) + tail)
  {
    if m == 0 {
      assert es[..0] + tail == tail && Leftover(es, fs, ok, 0) + tail == tail;
    } else {
      var more := Kept(es, fs, ok, m - 1) + tail;
      KeptIsMissed(es, fs, ok, m - 1, tail);
      SweepStep(t, es, fs, ok, m - 1, tail);
      Sweep(t, es, fs, ok, m - 1, more);
      assert Leftover(es, fs, ok, m) == Leftover(es, fs, ok, m - 1) + Kept(es, fs, ok, m - 1);
      Regroup(Leftover(es, fs, ok, m - 1), Kept(es, fs, ok, m - 1), tail);
    }
  }

  lemma {:induction false} UnaddedAreNotFound(t: Tables, es: seq<Entry>, fs: seq<Entry>, ok: nat -> bool, k: nat,
                                              n: nat)
    requires Paired(es, fs) && Clean(t, fs) && k <= n <= |es|
    ensures RemoveAll(AddAll(t, es[..k]), fs[..n], ok) == RemoveAll(AddAll(t, es[..k]), fs[..k], ok)
  {
    if k < n {
      var i := n - 1;
      assert fs[..n][..i] == fs[..i] && fs[..n][i] == fs[i];
      MatchesAfterAdding(t, es[..k], fs[i]);
      DeleteMisses(AddAll(t, es[..k]), fs[i]);
      UnaddedAreNotFound(t, es, fs, ok, k, i);
    }
  }

  /** After the first `k` additions, the whole sequence of removals leaves the tables as they were
      plus exactly the additions whose own removal failed or does not look for them. */
  lemma RemoveAllLeaves(t: Tables, es: seq<Entry>, fs: seq<Entry>, ok: nat -> bool, k: nat)
    requires Paired(es, fs) && Clean(t, fs) && k <= |es|
    ensures RemoveAll(AddAll(t, es[..k]), fs, ok) == AddAll(t, Leftover(es, fs, ok, k))
  {
    UnaddedAreNotFound(t, es, fs, ok, k, |fs|);
    assert fs[..|fs|] == fs;
    Sweep(t, es, fs, ok, k, []);
    assert es[..k] + [] == es[..k];
    assert Leftover(es, fs, ok, k) + [] == Leftover(es, fs, ok, k);
  }

  lemma {:induction false} NothingLeftover(es: seq<Entry>, fs: seq<Entry>, ok: nat -> bool, k: nat)
    requires k <= |es| == |fs| && forall i | 0 <= i < k :: Removes(es, fs, ok, i)
    ensures Leftover(es, fs, ok, k) == []
  {
    if k > 0 {
      NothingLeftover(es, fs, ok, k - 1);
    }
  }
}
