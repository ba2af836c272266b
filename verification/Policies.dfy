/** Endorsement policies in canonical form: the string a node builds from its peer registry, the
    string decoded from a committed policy envelope, and when the two are equal.

    A string is its sequence of code points. Go compares the bytes of their UTF-8 encoding, which keeps
    their order. */
module Policies {
  import opened Common
  import opened NodeManager

  /******* Sorting *******/

  predicate LexLe(a: string, b: string) {
    a == [] || (b != [] && (a[0] < b[0] || (a[0] == b[0] && LexLe(a[1..], b[1..]))))
  }

  lemma {:induction false} LexTotal(a: string, b: string)
    ensures LexLe(a, b) || LexLe(b, a)
  {
    if a != [] && b != [] && a[0] == b[0] {
      LexTotal(a[1..], b[1..]);
    }
  }

  lemma {:induction false} LexAntisymmetric(a: string, b: string)
    requires LexLe(a, b) && LexLe(b, a)
    ensures a == b
  {
    if a != [] {
      LexAntisymmetric(a[1..], b[1..]);
      assert a == [a[0]] + a[1..] && b == [b[0]] + b[1..];
    }
  }

  lemma {:induction false} LexTransitive(a: string, b: string, c: string)
    requires LexLe(a, b) && LexLe(b, c)
    ensures LexLe(a, c)
  {
    if a != [] && a[0] == b[0] == c[0] {
      LexTransitive(a[1..], b[1..], c[1..]);
    }
  }

  ghost predicate Sorted(s: seq<string>) {
    forall i, j :: 0 <= i < j < |s| ==> LexLe(s[i], s[j])
  }

  function Insert(x: string, s: seq<string>): (r: seq<string>)
    requires Sorted(s)
    ensures Sorted(r) && multiset(r) == multiset(s) + multiset{x}
  {
    if s == [] then [x]
    else if LexLe(x, s[0]) then
      assert Sorted([x] + s) by { FirstIsLeast(x, s); }
      [x] + s
    else
      var r := Insert(x, s[1..]);
      assert s == [s[0]] + s[1..];
      assert Sorted([s[0]] + r) by { LexTotal(x, s[0]); LeastOfInsert(x, s, r); }
      [s[0]] + r
  }

  lemma FirstIsLeast(x: string, s: seq<string>)
    requires Sorted(s) && s != [] && LexLe(x, s[0])
    ensures Sorted([x] + s)
  {
    forall i | 0 <= i < |s| ensures LexLe(x, s[i]) {
      if i > 0 { LexTransitive(x, s[0], s[i]); }
    }
  }

  lemma LeastOfInsert(x: string, s: seq<string>, r: seq<string>)
    requires Sorted(s) && s != [] && LexLe(s[0], x)
    requires Sorted(r) && multiset(r) == multiset(s[1..]) + multiset{x}
    ensures Sorted([s[0]] + r)
  {
    forall i | 0 <= i < |r| ensures LexLe(s[0], r[i]) {
      assert r[i] in multiset(r);
      if r[i] != x {
        assert r[i] in multiset(s[1..]) && r[i] in s[1..];
        var j :| 0 <= j < |s[1..]| && s[1..][j] == r[i];
        assert s[j + 1] == r[i];
      }
    }
  }

  /** The library's sort, by its contract: a sorted permutation. */
  function Sort(s: seq<string>): (r: seq<string>)
    ensures Sorted(r) && multiset(r) == multiset(s)
  {
    if s == [] then []
    else
      assert s == s[..|s| - 1] + [s[|s| - 1]];
      Insert(s[|s| - 1], Sort(s[..|s| - 1]))
  }

  lemma LeastIsFirst(a: seq<string>, x: string)
    requires Sorted(a) && a != [] && x in multiset(a)
    ensures LexLe(a[0], x)
  {
    var i :| 0 <= i < |a| && a[i] == x;
    if i == 0 { LexTotal(x, x); }
  }

  lemma TailMultiset(a: seq<string>)
    requires a != []
    ensures multiset(a[1..]) == multiset(a) - multiset{a[0]}
  {
    assert a == [a[0]] + a[1..];
  }

  lemma SameFirst(a: seq<string>, b: seq<string>)
    requires Sorted(a) && Sorted(b) && multiset(a) == multiset(b) && a != [] && b != []
    ensures a[0] == b[0]
    ensures multiset(a[1..]) == multiset(b[1..])
  {
    assert a[0] in multiset(a) && b[0] in multiset(b);
    LeastIsFirst(a, b[0]);
    LeastIsFirst(b, a[0]);
    LexAntisymmetric(a[0], b[0]);
    TailMultiset(a);
    TailMultiset(b);
  }

  /** A sorted list is determined by its contents. */
  lemma {:induction false} SortedUnique(a: seq<string>, b: seq<string>)
    requires Sorted(a) && Sorted(b) && multiset(a) == multiset(b)
    ensures a == b
  {
    assert |multiset(a)| == |a| && |multiset(b)| == |b|;
    if a != [] {
      SameFirst(a, b);
      SortedUnique(a[1..], b[1..]);
      assert a == [a[0]] + a[1..] && b == [b[0]] + b[1..];
    }
  }

  lemma {:induction false} DistinctMultiset<T>(s: seq<T>)
    requires Distinct(s)
    ensures forall x :: multiset(s)[x] == if x in s then 1 else 0
  {
    if s != [] {
      var t := s[..|s| - 1];
      DistinctMultiset(t);
      assert s == t + [s[|s| - 1]];
    }
  }

  lemma MultisetDistinct<T>(s: seq<T>)
    requires forall x :: multiset(s)[x] <= 1
    ensures Distinct(s)
  {
    forall i, j | 0 <= i < j < |s|
      ensures s[i] != s[j]
    {
      assert s == s[..j] + s[j..];
      assert s[i] in s[..j] && s[j] in s[j..];
      assert multiset(s)[s[i]] == multiset(s[..j])[s[i]] + multiset(s[j..])[s[i]];
    }
  }

  /** The members of a set in order. */
  ghost function Canonical(s: set<string>): (r: seq<string>)
    ensures Sorted(r) && Distinct(r) && Elements(r) == s
  {
    if s == {} then []
    else
      var x :| x in s;
      var rest := Canonical(s - {x});
      var r := Insert(x, rest);
      assert Distinct(r) && Elements(r) == s by { InsertNew(x, rest); }
      r
  }

  lemma InsertNew(x: string, s: seq<string>)
    requires Sorted(s) && Distinct(s) && x !in s
    ensures Distinct(Insert(x, s)) && Elements(Insert(x, s)) == Elements(s) + {x}
  {
    var r := Insert(x, s);
    DistinctMultiset(s);
    MultisetDistinct(r);
    forall y ensures y in r <==> y in s || y == x {
      assert y in r <==> y in multiset(r);
      assert y in s <==> y in multiset(s);
    }
  }

  /** Sorting a list gives the canonical order of a set exactly when the list names each member once. */
  lemma SortIsCanonical(s: seq<string>, members: set<string>)
    ensures Sort(s) == Canonical(members) <==> Distinct(s) && Elements(s) == members
  {
    var c := Canonical(members);
    forall y ensures y in s <==> y in Sort(s) {
      assert y in s <==> y in multiset(s);
      assert y in Sort(s) <==> y in multiset(Sort(s));
    }
    if Sort(s) == c {
      DistinctMultiset(c);
      MultisetDistinct(s);
    }
    if Distinct(s) && Elements(s) == members {
      DistinctMultiset(s);
      DistinctMultiset(c);
      assert multiset(Sort(s)) == multiset(c) by {
        forall y ensures multiset(Sort(s))[y] == multiset(c)[y] {
          assert y in s <==> y in Elements(s);
          assert y in c <==> y in Elements(c);
        }
      }
      SortedUnique(Sort(s), c);
    }
  }

  /******* Rendering *******/

  function Quoted(id: string): string {
    "'" + id + ".peer'"
  }

  function JoinQuoted(ids: seq<string>): string {
    if ids == [] then ""
    else if |ids| == 1 then Quoted(ids[0])
    else Quoted(ids[0]) + "," + JoinQuoted(ids[1..])
  }

  function Render(ids: seq<string>): string {
    "OR(" + JoinQuoted(ids) + ")"
  }

  /** What stands between two names. */
  const SEPARATOR := ".peer','"

  predicate SeparatorAt(s: string, i: int) {
    0 <= i <= |s| - |SEPARATOR| && s[i..i + |SEPARATOR|] == SEPARATOR
  }

  predicate HasSeparator(s: string) {
    exists i :: 0 <= i <= |s| && SeparatorAt(s, i)
  }

  predicate SeparatorFree(ids: seq<string>) {
    forall id :: id in ids ==> !HasSeparator(id)
  }

  /** The names with separators between them: all of the rendering but its two ends. */
  function Interior(ids: seq<string>): string
    requires ids != []
  {
    if |ids| == 1 then ids[0] else ids[0] + SEPARATOR + Interior(ids[1..])
  }

  lemma {:induction false} JoinIsInterior(ids: seq<string>)
    requires ids != []
    ensures JoinQuoted(ids) == "'" + Interior(ids) + ".peer'"
  {
    if |ids| > 1 {
      var rest := Interior(ids[1..]);
      JoinIsInterior(ids[1..]);
      assert SEPARATOR == ".peer'" + "," + "'";
      assert Quoted(ids[0]) + "," + ("'" + rest + ".peer'") == "'" + (ids[0] + SEPARATOR + rest) + ".peer'";
    }
  }

  /** The end of a name and the beginning of the separator after it never make up another separator:
      the separator's first character does not occur in it again. */
  lemma FirstSeparator(name: string, rest: string, i: nat)
    requires !HasSeparator(name)
    ensures SeparatorAt(name + SEPARATOR + rest, |name|)
    ensures i < |name| ==> !SeparatorAt(name + SEPARATOR + rest, i)
  {
    var s := name + SEPARATOR + rest;
    assert s[|name|..|name| + |SEPARATOR|] == SEPARATOR;
    if i < |name| {
      if i + |SEPARATOR| <= |name| {
        assert name[i..i + |SEPARATOR|] == s[i..i + |SEPARATOR|];
        assert !SeparatorAt(name, i);
      } else {
        assert s[i..i + |SEPARATOR|][|name| - i] == s[|name|] == '.';
        assert SEPARATOR[|name| - i] != '.';
      }
    }
  }

  /** More than one name leaves a separator, whatever the names. */
  lemma SeparatorBetween(ids: seq<string>)
    requires |ids| > 1
    ensures SeparatorAt(Interior(ids), |ids[0]|) && HasSeparator(Interior(ids))
  {
    var s := Interior(ids);
    assert s[|ids[0]|..|ids[0]| + |SEPARATOR|] == SEPARATOR;
  }

  lemma {:induction false} InteriorInjective(a: seq<string>, b: seq<string>)
    requires a != [] && b != [] && SeparatorFree(a) && SeparatorFree(b)
    requires Interior(a) == Interior(b)
    ensures a == b
  {
    assert a[0] in a && b[0] in b;
    if |a| > 1 { SeparatorBetween(a); }
    if |b| > 1 { SeparatorBetween(b); }
    if |a| > 1 && |b| > 1 {
      var ra, rb := Interior(a[1..]), Interior(b[1..]);
      FirstSeparator(a[0], ra, |b[0]|);
      FirstSeparator(b[0], rb, |a[0]|);
      var s := Interior(a);
      assert a[0] == s[..|a[0]|] && b[0] == s[..|a[0]|];
      assert ra == s[|a[0]| + |SEPARATOR|..] && rb == s[|a[0]| + |SEPARATOR|..];
      InteriorInjective(a[1..], b[1..]);
    }
    assert a == [a[0]] + a[1..] && b == [b[0]] + b[1..];
  }

  /** For names that do not contain the separator, the rendered list determines the names. */
  lemma RenderInjective(a: seq<string>, b: seq<string>)
    requires SeparatorFree(a) && SeparatorFree(b)
    ensures Render(a) == Render(b) <==> a == b
  {
    if Render(a) == Render(b) {
      SameJoin(a, b);
      if a != [] && b != [] {
        SameInterior(a, b);
        InteriorInjective(a, b);
      }
    }
  }

  lemma SameJoin(a: seq<string>, b: seq<string>)
    requires Render(a) == Render(b)
    ensures JoinQuoted(a) == JoinQuoted(b) && (a == [] <==> b == [])
  {
    assert JoinQuoted(a) == Render(a)[3..|Render(a)| - 1];
    assert JoinQuoted(b) == Render(b)[3..|Render(b)| - 1];
    if a != [] { JoinIsInterior(a); }
    if b != [] { JoinIsInterior(b); }
  }

  lemma SameInterior(a: seq<string>, b: seq<string>)
    requires a != [] && b != [] && JoinQuoted(a) == JoinQuoted(b)
    ensures Interior(a) == Interior(b)
  {
    JoinIsInterior(a);
    JoinIsInterior(b);
    var s := JoinQuoted(a);
    assert Interior(a) == s[1..|s| - 6] && Interior(b) == s[1..|s| - 6];
  }

  ghost predicate RendersAlike(name: string, other: seq<string>) {
    other != [name] && Render(other) == Render([name])
  }

  /** A name is ambiguous, rendering as some other list does, if and only if it contains the separator;
      a quote alone does no harm. */
  lemma AmbiguousNames(name: string)
    ensures (exists other :: RendersAlike(name, other)) <==> HasSeparator(name)
  {
    if HasSeparator(name) {
      var i :| 0 <= i <= |name| && SeparatorAt(name, i);
      var other := [name[..i], name[i + |SEPARATOR|..]];
      assert other[1..] == [name[i + |SEPARATOR|..]];
      assert Interior(other) == name[..i] + SEPARATOR + name[i + |SEPARATOR|..] == name;
      JoinIsInterior(other);
      JoinIsInterior([name]);
      assert RendersAlike(name, other);
    }
    if other :| RendersAlike(name, other) {
      SameJoin(other, [name]);
      SameInterior(other, [name]);
      if |other| > 1 { SeparatorBetween(other); }
    }
  }

  /******* What a policy string means *******/

  datatype MSPRole = MemberRole | AdminRole | ClientRole | PeerRole | OrdererRole

  datatype Principal = RolePrincipal(role: MSPRole, mspID: string) | OtherPrincipal

  /** A text cut at its separators, from position i on. */
  function SplitFrom(s: string, i: nat): seq<string>
    decreases |s|, |s| - i
  {
    if i + |SEPARATOR| > |s| then [s]
    else if SeparatorAt(s, i) then [s[..i]] + SplitFrom(s[i + |SEPARATOR|..], 0)
    else SplitFrom(s, i + 1)
  }

  /** A list of quoted peer names, read: what stands between the quotes. */
  function ReadNames(text: string): Option<seq<string>> {
    if text == "" then Some([])
    else if |text| >= 7 && text[0] == '\'' && text[|text| - 6..] == ".peer'"
    then Some(SplitFrom(text[1..|text| - 6], 0))
    else None
  }

  predicate Applies(policy: string, operator: string) {
    |policy| > |operator| && policy[..|operator|] == operator && policy[|policy| - 1] == ')'
  }

  function Arguments(policy: string, operator: string): Option<seq<string>>
    requires Applies(policy, operator)
  {
    ReadNames(policy[|operator|..|policy| - 1])
  }

  /** Whether signatures meet a policy in Fabric's notation: a peer of any organisation named in OR(...), a peer
      of each in AND(...), or of the one in a single quoted name. What cannot be read is never met. */
  ghost predicate Met(policy: string, signers: set<Principal>) {
    if Applies(policy, "OR(") then
      var names := Arguments(policy, "OR(");
      names.Some? && exists m :: m in names.value && RolePrincipal(PeerRole, m) in signers
    else if Applies(policy, "AND(") then
      var names := Arguments(policy, "AND(");
      names.Some? && forall m :: m in names.value ==> RolePrincipal(PeerRole, m) in signers
    else
      var names := ReadNames(policy);
      names.Some? && |names.value| == 1 && RolePrincipal(PeerRole, names.value[0]) in signers
  }

  lemma {:induction false} SplitAtFirst(s: string, i: nat, k: nat)
    requires i <= k && SeparatorAt(s, k) && forall j :: i <= j < k ==> !SeparatorAt(s, j)
    ensures SplitFrom(s, i) == [s[..k]] + SplitFrom(s[k + |SEPARATOR|..], 0)
    decreases k - i
  {
    if i < k {
      SplitAtFirst(s, i + 1, k);
    }
  }

  lemma {:induction false} NoSplit(s: string, i: nat)
    requires forall j :: i <= j <= |s| ==> !SeparatorAt(s, j)
    ensures SplitFrom(s, i) == [s]
    decreases |s| - i
  {
    if i + |SEPARATOR| <= |s| {
      NoSplit(s, i + 1);
    }
  }

  lemma {:induction false} SplitInterior(ids: seq<string>)
    requires ids != [] && SeparatorFree(ids)
    ensures SplitFrom(Interior(ids), 0) == ids
  {
    assert ids[0] in ids;
    if |ids| == 1 {
      NoSplit(ids[0], 0);
    } else {
      var rest := Interior(ids[1..]);
      forall j | 0 <= j < |ids[0]|
        ensures !SeparatorAt(Interior(ids), j)
      {
        FirstSeparator(ids[0], rest, j);
      }
      FirstSeparator(ids[0], rest, 0);
      SplitAtFirst(Interior(ids), 0, |ids[0]|);
      assert Interior(ids)[..|ids[0]|] == ids[0] && Interior(ids)[|ids[0]| + |SEPARATOR|..] == rest;
      SplitInterior(ids[1..]);
      assert ids == [ids[0]] + ids[1..];
    }
  }

  /** No name that is read contains a separator. */
  lemma {:induction false} PiecesAreFree(s: string, i: nat)
    requires forall j :: 0 <= j < i ==> !SeparatorAt(s, j)
    ensures SeparatorFree(SplitFrom(s, i))
    decreases |s|, |s| - i
  {
    if i + |SEPARATOR| > |s| {
    } else if SeparatorAt(s, i) {
      PiecesAreFree(s[i + |SEPARATOR|..], 0);
      forall j | 0 <= j <= i
        ensures !SeparatorAt(s[..i], j)
      {
        if j + |SEPARATOR| <= i {
          assert s[..i][j..j + |SEPARATOR|] == s[j..j + |SEPARATOR|];
          assert !SeparatorAt(s, j);
        }
      }
    } else {
      PiecesAreFree(s, i + 1);
    }
  }

  /** A rendered policy is read as an OR over the names cut at separators. */
  lemma RenderReads(ids: seq<string>)
    ensures Applies(Render(ids), "OR(")
    ensures Arguments(Render(ids), "OR(") == Some(if ids == [] then [] else SplitFrom(Interior(ids), 0))
  {
    var text := JoinQuoted(ids);
    assert Render(ids)[..3] == "OR(" && Render(ids)[3..|Render(ids)| - 1] == text;
    if ids != [] {
      JoinIsInterior(ids);
      assert text[1..|text| - 6] == Interior(ids) && text[|text| - 6..] == ".peer'";
    }
  }

  /** So for names without separators it is met exactly when a peer of a named organisation signed. */
  lemma RenderMeaning(ids: seq<string>, signers: set<Principal>)
    requires SeparatorFree(ids)
    ensures Met(Render(ids), signers) <==> exists m :: m in ids && RolePrincipal(PeerRole, m) in signers
  {
    RenderReads(ids);
    if ids != [] { SplitInterior(ids); }
  }

  /** And never by a name that contains one. */
  lemma SeparatorNeverMet(ids: seq<string>, name: string)
    requires HasSeparator(name)
    ensures !Met(Render(ids), {RolePrincipal(PeerRole, name)})
  {
    RenderReads(ids);
    if ids != [] { PiecesAreFree(Interior(ids), 0); }
  }

  /******* The policy a node wants *******/

  datatype NodeConfig = NodeConfig(role: NodeManager.Role, mspID: string)

  /** The organisations a node's registry and its own configuration name. */
  ghost function KnownMSPs(peers: seq<PeerInfo>, cfg: Option<NodeConfig>): set<string> {
    (set p | p in peers && p.mspID != "" :: p.mspID)
    + (if cfg.Some? && cfg.value.role == Peer && cfg.value.mspID != "" then {cfg.value.mspID} else {})
  }

  /** An organisation is known if some listed peer names it, or if the node is itself a peer of it. */
  ghost predicate Named(peers: seq<PeerInfo>, cfg: Option<NodeConfig>, m: string) {
    m != "" && ((exists p :: p in peers && p.mspID == m) || cfg == Some(NodeConfig(Peer, m)))
  }

  lemma KnownAreNamed(peers: seq<PeerInfo>, cfg: Option<NodeConfig>)
    ensures forall m :: m in KnownMSPs(peers, cfg) <==> Named(peers, cfg, m)
  {
  }

  /** The known peers, one an organisation, in order of their MSP IDs. */
  method CollectKnownPeers(peers: seq<PeerInfo>, cfg: Option<NodeConfig>) returns (known: seq<string>)
    ensures known == Canonical(KnownMSPs(peers, cfg))
  {
    var byMSP: map<string, PeerInfo> := map[];
    for i := 0 to |peers|
      invariant byMSP.Keys == set p | p in peers[..i] && p.mspID != "" :: p.mspID
    {
      assert peers[..i + 1] == peers[..i] + [peers[i]];
      if peers[i].mspID == "" {
        continue;
      }
      byMSP := byMSP[peers[i].mspID := peers[i]];
    }
    assert peers[..|peers|] == peers;
    if cfg.Some? && cfg.value.role == Peer && cfg.value.mspID != "" {
      byMSP := byMSP[cfg.value.mspID := PeerInfo("", cfg.value.mspID, "", "", 0, 0)];
    }
    // A map is walked in no particular order; the sort makes up for it.
    var unseen := byMSP.Keys;
    var keys: seq<string> := [];
    while unseen != {}
      invariant unseen <= byMSP.Keys && Distinct(keys)
      invariant Elements(keys) == byMSP.Keys - unseen
      decreases unseen
    {
      var k :| k in unseen;
      ElementsAppend(keys, k);
      unseen := unseen - {k};
      keys := keys + [k];
    }
    assert byMSP.Keys == KnownMSPs(peers, cfg);
    SortIsCanonical(keys, KnownMSPs(peers, cfg));
    known := Sort(keys);
  }

  lemma NoEmptyMSP(peers: seq<PeerInfo>, cfg: Option<NodeConfig>)
    ensures KnownMSPs(peers, cfg) - {""} == KnownMSPs(peers, cfg)
  {
  }

  lemma AppendNew(s: seq<string>, x: string)
    requires Distinct(s) && x !in Elements(s)
    ensures Distinct(s + [x]) && Elements(s + [x]) == Elements(s) + {x}
  {
  }

  lemma PrefixElements(s: seq<string>, i: nat)
    requires i < |s|
    ensures Elements(s[..i + 1]) == Elements(s[..i]) + {s[i]}
  {
    assert s[..i + 1] == s[..i] + [s[i]];
  }

  /** The loop that skips empty and repeated MSP IDs. */
  method NamedOnce(known: seq<string>) returns (mspIDs: seq<string>)
    ensures Distinct(mspIDs) && Elements(mspIDs) == Elements(known) - {""}
  {
    mspIDs := [];
    var seen: set<string> := {};
    for i := 0 to |known|
      invariant Distinct(mspIDs) && Elements(mspIDs) == seen == Elements(known[..i]) - {""}
    {
      PrefixElements(known, i);
      if known[i] == "" || known[i] in seen {
        continue;
      }
      AppendNew(mspIDs, known[i]);
      seen := seen + {known[i]};
      mspIDs := mspIDs + [known[i]];
    }
    assert known[..|known|] == known;
  }

  method BuildSignaturePolicy(peers: seq<PeerInfo>, cfg: Option<NodeConfig>) returns (policy: string)
    ensures policy == Render(Canonical(KnownMSPs(peers, cfg)))
    ensures (forall m :: Named(peers, cfg, m) ==> !HasSeparator(m)) ==>
              forall signers: set<Principal> :: Met(policy, signers)
                <==> exists m :: Named(peers, cfg, m) && RolePrincipal(PeerRole, m) in signers
  {
    var known := CollectKnownPeers(peers, cfg);
    var mspIDs := NamedOnce(known);
    NoEmptyMSP(peers, cfg);
    SortIsCanonical(mspIDs, KnownMSPs(peers, cfg));
    policy := Render(Sort(mspIDs));
    WantedMeaning(KnownMSPs(peers, cfg));
    KnownAreNamed(peers, cfg);
  }

  /** The canonical policy of a set of organisations asks for a peer of any of them. */
  lemma WantedMeaning(members: set<string>)
    ensures (forall m :: m in members ==> !HasSeparator(m)) ==>
              forall signers: set<Principal> :: Met(Render(Canonical(members)), signers)
                <==> exists m :: m in members && RolePrincipal(PeerRole, m) in signers
  {
    var ids := Canonical(members);
    assert forall m :: m in ids <==> m in Elements(ids);
    if forall m :: m in members ==> !HasSeparator(m) {
      forall signers: set<Principal>
        ensures Met(Render(ids), signers) <==> exists m :: m in members && RolePrincipal(PeerRole, m) in signers
      {
        RenderMeaning(ids, signers);
      }
    }
  }

  /******* The policy that is committed *******/

  datatype Rule = Unset | SignedBy(index: int) | NOutOf(n: int, rules: seq<Rule>)

  datatype Envelope = Envelope(identities: seq<Principal>, rule: Rule)

  datatype DecodeError = MissingEnvelope | NotARole | NotAPeer | NotOrShaped

  /** One of n, over each of the n identities once. */
  ghost predicate OrOfAll(rule: Rule, identities: nat) {
    && rule.NOutOf? && rule.n == 1
    && multiset(rule.rules) == multiset(seq(identities, i requires 0 <= i => SignedBy(i)))
  }

  lemma IndicesDistinct(n: nat)
    ensures Distinct(seq(n, i requires 0 <= i => SignedBy(i)))
  {
  }

  /** n different indices below n are all of them. */
  lemma Pigeonhole(rules: seq<Rule>, n: nat)
    requires |rules| == n
    requires forall i :: 0 <= i < n ==> rules[i].SignedBy? && 0 <= rules[i].index < n
    requires Distinct(rules)
    ensures multiset(rules) == multiset(seq(n, i requires 0 <= i => SignedBy(i)))
  {
    var all := seq(n, i requires 0 <= i => SignedBy(i));
    IndicesDistinct(n);
    DistinctCardinality(rules);
    DistinctCardinality(all);
    DistinctMultiset(rules);
    DistinctMultiset(all);
    assert Elements(rules) <= Elements(all) by {
      forall r | r in rules ensures r in all {
        assert all[r.index] == r;
      }
    }
    assert Elements(rules) == Elements(all) by {
      if Elements(rules) != Elements(all) {
        SubsetCardinality(Elements(rules), Elements(all));
        var x :| x in Elements(all) && x !in Elements(rules);
        SubsetCardinality(Elements(rules), Elements(all) - {x});
      }
    }
    forall r ensures multiset(rules)[r] == multiset(all)[r] {
      assert r in rules <==> r in Elements(rules);
      assert r in all <==> r in Elements(all);
    }
  }

  lemma OrShape(rules: seq<Rule>, n: nat)
    ensures multiset(rules) == multiset(seq(n, i requires 0 <= i => SignedBy(i)))
            <==> (|rules| == n && Distinct(rules)
                  && forall i :: 0 <= i < |rules| ==> rules[i].SignedBy? && 0 <= rules[i].index < n)
  {
    var all := seq(n, i requires 0 <= i => SignedBy(i));
    if multiset(rules) == multiset(all) {
      assert |multiset(rules)| == |rules| && |multiset(all)| == n;
      IndicesDistinct(n);
      DistinctMultiset(all);
      MultisetDistinct(rules);
      forall i | 0 <= i < |rules|
        ensures rules[i].SignedBy? && 0 <= rules[i].index < n
      {
        assert rules[i] in multiset(rules) && rules[i] in multiset(all);
        assert rules[i] in all;
      }
    } else if |rules| == n && Distinct(rules)
              && forall i :: 0 <= i < |rules| ==> rules[i].SignedBy? && 0 <= rules[i].index < n {
      Pigeonhole(rules, n);
    }
  }

  /** The leaves looked at so far are different indices in range, and `seen` holds these. */
  ghost predicate SeenSoFar(rules: seq<Rule>, i: nat, n: nat, seen: set<int>)
    requires i <= |rules|
  {
    && (forall j :: 0 <= j < i ==> rules[j].SignedBy? && 0 <= rules[j].index < n && rules[j].index in seen)
    && (forall x :: x in seen ==> SignedBy(x) in rules[..i])
    && |seen| == i && Distinct(rules[..i])
  }

  lemma SeenMore(rules: seq<Rule>, i: nat, n: nat, seen: set<int>)
    requires i < |rules| && SeenSoFar(rules, i, n, seen)
    requires rules[i].SignedBy? && 0 <= rules[i].index < n && rules[i].index !in seen
    ensures SeenSoFar(rules, i + 1, n, seen + {rules[i].index})
  {
    assert rules[..i + 1] == rules[..i] + [rules[i]];
  }

  lemma SeenAgain(rules: seq<Rule>, i: nat, n: nat, seen: set<int>)
    requires i < |rules| && SeenSoFar(rules, i, n, seen)
    requires rules[i].SignedBy? && rules[i].index in seen
    ensures !Distinct(rules)
  {
    var j :| 0 <= j < i && rules[..i][j] == SignedBy(rules[i].index);
    assert rules[j] == rules[i];
  }

  /** The recogniser accepts exactly the one-of-n rules whose leaves are a permutation of all the
      identities. */
  method IsORPolicyRule(rule: Rule, identities: nat) returns (ok: bool)
    ensures ok <==> OrOfAll(rule, identities)
  {
    if !rule.NOutOf? {
      return false;
    }
    OrShape(rule.rules, identities);
    if rule.n != 1 || |rule.rules| != identities {
      return false;
    }
    var seen: set<int> := {};
    for i := 0 to |rule.rules|
      invariant SeenSoFar(rule.rules, i, identities, seen)
    {
      var sub := rule.rules[i];
      if !sub.SignedBy? {
        return false;
      }
      if sub.index < 0 || sub.index >= identities {
        return false;
      }
      if sub.index in seen {
        SeenAgain(rule.rules, i, identities, seen);
        return false;
      }
      SeenMore(rule.rules, i, identities, seen);
      seen := seen + {sub.index};
    }
    assert rule.rules[..|rule.rules|] == rule.rules;
    return |seen| == identities;
  }

  /** The MSP IDs of an envelope's identities, if they are all peers. */
  function PeerMSPs(identities: seq<Principal>): Result<seq<string>, DecodeError> {
    if identities == [] then Ok([])
    else
      var init, p := PeerMSPs(identities[..|identities| - 1]), identities[|identities| - 1];
      if init.Err? then init
      else if p.OtherPrincipal? then Err(NotARole)
      else if p.role != PeerRole then Err(NotAPeer)
      else Ok(init.value + [p.mspID])
  }

  ghost function Decoded(env: Option<Envelope>): Result<string, DecodeError> {
    if env.None? then Err(MissingEnvelope)
    else
      var ids := PeerMSPs(env.value.identities);
      if ids.Err? then Err(ids.error)
      else if !OrOfAll(env.value.rule, |ids.value|) then Err(NotOrShaped)
      else Ok(Render(Sort(ids.value)))
  }

  method SignatureEnvelopeToPolicy(env: Option<Envelope>) returns (r: Result<string, DecodeError>)
    ensures r == Decoded(env)
  {
    if env.None? {
      return Err(MissingEnvelope);
    }
    var identities := env.value.identities;
    var mspIDs: seq<string> := [];
    for i := 0 to |identities|
      invariant PeerMSPs(identities[..i]) == Ok(mspIDs)
    {
      assert identities[..i + 1][..i] == identities[..i];
      var p := identities[i];
      if p.OtherPrincipal? {
        FirstErrorStays(identities, i + 1);
        return Err(NotARole);
      }
      if p.role != PeerRole {
        FirstErrorStays(identities, i + 1);
        return Err(NotAPeer);
      }
      mspIDs := mspIDs + [p.mspID];
    }
    assert identities[..|identities|] == identities;
    var ok := IsORPolicyRule(env.value.rule, |mspIDs|);
    if !ok {
      return Err(NotOrShaped);
    }
    return Ok(Render(Sort(mspIDs)));
  }

  lemma {:induction false} FirstErrorStays(identities: seq<Principal>, k: nat)
    requires k <= |identities| && PeerMSPs(identities[..k]).Err?
    ensures PeerMSPs(identities) == PeerMSPs(identities[..k])
    decreases |identities| - k
  {
    if k < |identities| {
      assert identities[..k + 1][..k] == identities[..k];
      FirstErrorStays(identities, k + 1);
    } else {
      assert identities[..k] == identities;
    }
  }

  predicate IsPeer(p: Principal) {
    p.RolePrincipal? && p.role == PeerRole
  }

  lemma {:induction false} PeersHaveIDs(identities: seq<Principal>)
    ensures PeerMSPs(identities).Ok? <==> forall p :: p in identities ==> IsPeer(p)
    ensures PeerMSPs(identities).Ok? ==> |PeerMSPs(identities).value| == |identities|
  {
    if identities != [] {
      var init, last := identities[..|identities| - 1], identities[|identities| - 1];
      PeersHaveIDs(init);
      assert PeerMSPs(identities).Ok? <==> PeerMSPs(init).Ok? && IsPeer(last);
      assert forall p :: p in identities <==> p in init || p == last by { assert identities == init + [last]; }
      assert (forall p :: p in identities ==> IsPeer(p)) <==> (forall p :: p in init ==> IsPeer(p)) && IsPeer(last);
    }
  }

  /** An envelope decodes exactly if its principals are all peers and its rule asks for one of as many different
      signatures, one of each principal. */
  lemma DecodesExactly(env: Envelope)
    ensures Decoded(Some(env)).Ok? <==>
            && (forall p :: p in env.identities ==> p.RolePrincipal? && p.role == PeerRole)
            && env.rule.NOutOf? && env.rule.n == 1
            && |env.rule.rules| == |env.identities| && Distinct(env.rule.rules)
            && forall i :: 0 <= i < |env.rule.rules| ==>
                 env.rule.rules[i].SignedBy? && 0 <= env.rule.rules[i].index < |env.identities|
  {
    PeersHaveIDs(env.identities);
    assert (forall p :: p in env.identities ==> IsPeer(p))
      <==> forall p :: p in env.identities ==> p.RolePrincipal? && p.role == PeerRole;
    if env.rule.NOutOf? { OrShape(env.rule.rules, |env.identities|); }
  }

  /** The first principal that is no peer gives the error, and the shape of the rule one only when there is none. */
  lemma FirstErrorReported(env: Envelope, k: nat)
    requires k < |env.identities| && !IsPeer(env.identities[k])
    requires forall j :: 0 <= j < k ==> IsPeer(env.identities[j])
    ensures Decoded(Some(env)) == Err(if env.identities[k].RolePrincipal? then NotAPeer else NotARole)
  {
    PeersHaveIDs(env.identities[..k]);
    assert env.identities[..k + 1][..k] == env.identities[..k];
    FirstErrorStays(env.identities, k + 1);
  }

  /******* When the two are equal *******/

  lemma {:induction false} PeerMSPsAreTheIDs(identities: seq<Principal>)
    requires PeerMSPs(identities).Ok?
    ensures |PeerMSPs(identities).value| == |identities|
    ensures forall i :: 0 <= i < |identities| ==>
              identities[i] == RolePrincipal(PeerRole, PeerMSPs(identities).value[i])
  {
    if identities != [] {
      PeerMSPsAreTheIDs(identities[..|identities| - 1]);
    }
  }

  /** A node finds its wanted policy already committed exactly when the envelope names each known
      organisation once and no other, in whatever order. */
  lemma CanonicalEquality(peers: seq<PeerInfo>, cfg: Option<NodeConfig>, env: Envelope)
    requires Decoded(Some(env)).Ok?
    requires forall m :: m in KnownMSPs(peers, cfg) ==> !HasSeparator(m)
    requires forall p :: p in env.identities && p.RolePrincipal? ==> !HasSeparator(p.mspID)
    ensures Decoded(Some(env)).value == Render(Canonical(KnownMSPs(peers, cfg)))
            <==> Distinct(env.identities)
                 && Elements(env.identities) == set m | m in KnownMSPs(peers, cfg) :: RolePrincipal(PeerRole, m)
  {
    var ids, members := PeerMSPs(env.identities).value, KnownMSPs(peers, cfg);
    PeerMSPsAreTheIDs(env.identities);
    assert forall i :: 0 <= i < |ids| ==> env.identities[i] in env.identities;
    SortRendersCanonical(ids, members);
    NamesMatchPrincipals(env.identities, ids, members);
  }

  lemma SortRendersCanonical(ids: seq<string>, members: set<string>)
    requires (forall m :: m in members ==> !HasSeparator(m)) && SeparatorFree(ids)
    ensures Render(Sort(ids)) == Render(Canonical(members)) <==> Distinct(ids) && Elements(ids) == members
  {
    forall id | id in Sort(ids) ensures !HasSeparator(id) {
      assert id in multiset(Sort(ids)) && id in multiset(ids) && id in ids;
    }
    forall id | id in Canonical(members) ensures !HasSeparator(id) {
      assert id in Elements(Canonical(members));
    }
    RenderInjective(Sort(ids), Canonical(members));
    SortIsCanonical(ids, members);
  }

  lemma NamesMatchPrincipals(identities: seq<Principal>, ids: seq<string>, members: set<string>)
    requires |ids| == |identities|
    requires forall i :: 0 <= i < |ids| ==> identities[i] == RolePrincipal(PeerRole, ids[i])
    ensures Distinct(ids) <==> Distinct(identities)
    ensures Elements(ids) == members
            <==> Elements(identities) == set m | m in members :: RolePrincipal(PeerRole, m)
  {
    var principals := set m | m in members :: RolePrincipal(PeerRole, m);
    forall m ensures m in ids <==> RolePrincipal(PeerRole, m) in identities {}
    if Elements(ids) == members {
      forall p | p in identities ensures p in principals {
        var i :| 0 <= i < |ids| && identities[i] == p;
        assert ids[i] in Elements(ids);
      }
      forall p | p in principals ensures p in identities {
        assert p.mspID in Elements(ids);
      }
    }
    if Elements(identities) == principals {
      forall m | m in ids ensures m in members {
        assert RolePrincipal(PeerRole, m) in Elements(identities);
      }
      forall m | m in members ensures m in ids {
        assert RolePrincipal(PeerRole, m) in principals;
      }
    }
  }

  /******* What a decoded policy means *******/

  /** Fabric's evaluation of a rule, for a set of principals some signature satisfies. */
  ghost function Satisfied(rule: Rule, identities: seq<Principal>, signers: set<Principal>): bool {
    match rule
    case Unset => false
    case SignedBy(i) => 0 <= i < |identities| && identities[i] in signers
    case NOutOf(n, rules) => SatisfiedCount(rules, identities, signers) >= n
  }

  ghost function SatisfiedCount(rules: seq<Rule>, identities: seq<Principal>, signers: set<Principal>): nat {
    if rules == [] then 0
    else SatisfiedCount(rules[1..], identities, signers)
         + if Satisfied(rules[0], identities, signers) then 1 else 0
  }

  lemma {:induction false} SomeSatisfied(rules: seq<Rule>, identities: seq<Principal>, signers: set<Principal>)
    ensures SatisfiedCount(rules, identities, signers) >= 1
            <==> exists r :: r in rules && Satisfied(r, identities, signers)
  {
    if rules != [] {
      SomeSatisfied(rules[1..], identities, signers);
      if SatisfiedCount(rules[1..], identities, signers) >= 1 {
        var r :| r in rules[1..] && Satisfied(r, identities, signers);
        assert r in rules;
      }
      if r :| r in rules && Satisfied(r, identities, signers) {
        assert r == rules[0] || r in rules[1..];
      }
    }
  }

  lemma SignerSatisfies(rules: seq<Rule>, ids: seq<string>, identities: seq<Principal>, signers: set<Principal>, m: string)
    requires |identities| == |ids| && forall i :: 0 <= i < |ids| ==> identities[i] == RolePrincipal(PeerRole, ids[i])
    requires forall r :: r in rules <==> r.SignedBy? && 0 <= r.index < |ids|
    requires m in ids && RolePrincipal(PeerRole, m) in signers
    ensures exists r :: r in rules && Satisfied(r, identities, signers)
  {
    var i :| 0 <= i < |ids| && ids[i] == m;
    assert SignedBy(i) in rules && Satisfied(SignedBy(i), identities, signers);
  }

  lemma SatisfiedHasSigner(rules: seq<Rule>, ids: seq<string>, identities: seq<Principal>, signers: set<Principal>, r: Rule)
    requires |identities| == |ids| && forall i :: 0 <= i < |ids| ==> identities[i] == RolePrincipal(PeerRole, ids[i])
    requires forall q :: q in rules <==> q.SignedBy? && 0 <= q.index < |ids|
    requires r in rules && Satisfied(r, identities, signers)
    ensures exists m :: m in ids && RolePrincipal(PeerRole, m) in signers
  {
    assert ids[r.index] in ids && RolePrincipal(PeerRole, ids[r.index]) in signers;
  }

  /** Whatever signatures there are, a policy that decodes is met exactly when a peer of some listed
      organisation signed. */
  lemma DecodingKeepsMeaning(env: Envelope, signers: set<Principal>)
    requires Decoded(Some(env)).Ok?
    ensures Satisfied(env.rule, env.identities, signers)
            <==> exists m :: m in PeerMSPs(env.identities).value && RolePrincipal(PeerRole, m) in signers
  {
    var ids, rules := PeerMSPs(env.identities).value, env.rule.rules;
    PeerMSPsAreTheIDs(env.identities);
    LeavesAreTheIdentities(rules, |ids|);
    SomeSatisfied(rules, env.identities, signers);
    assert Satisfied(env.rule, env.identities, signers) <==> SatisfiedCount(rules, env.identities, signers) >= 1;
    if m :| m in ids && RolePrincipal(PeerRole, m) in signers {
      SignerSatisfies(rules, ids, env.identities, signers, m);
    } else if r :| r in rules && Satisfied(r, env.identities, signers) {
      SatisfiedHasSigner(rules, ids, env.identities, signers, r);
    }
  }

  /** The decoded string means what the envelope means, for all signatures, if and only if no name contains a
      separator. */
  lemma DecodedStringMeaning(env: Envelope)
    requires Decoded(Some(env)).Ok?
    ensures (forall signers :: Satisfied(env.rule, env.identities, signers) <==> Met(Decoded(Some(env)).value, signers))
            <==> SeparatorFree(PeerMSPs(env.identities).value)
  {
    var ids := PeerMSPs(env.identities).value;
    SortKeepsNames(ids);
    if SeparatorFree(ids) {
      forall signers
        ensures Satisfied(env.rule, env.identities, signers) <==> Met(Decoded(Some(env)).value, signers)
      {
        DecodingKeepsMeaning(env, signers);
        RenderMeaning(Sort(ids), signers);
      }
    } else {
      var name :| name in ids && HasSeparator(name);
      var signers := {RolePrincipal(PeerRole, name)};
      DecodingKeepsMeaning(env, signers);
      SeparatorNeverMet(Sort(ids), name);
    }
  }

  lemma SortKeepsNames(ids: seq<string>)
    ensures forall m :: m in Sort(ids) <==> m in ids
  {
    forall m
      ensures m in Sort(ids) <==> m in ids
    {
      assert m in Sort(ids) <==> m in multiset(Sort(ids));
      assert m in ids <==> m in multiset(ids);
    }
  }

  lemma LeavesAreTheIdentities(rules: seq<Rule>, n: nat)
    requires multiset(rules) == multiset(seq(n, i requires 0 <= i => SignedBy(i)))
    ensures forall r :: r in rules <==> r.SignedBy? && 0 <= r.index < n
  {
    var all := seq(n, i requires 0 <= i => SignedBy(i));
    forall r ensures r in rules <==> r.SignedBy? && 0 <= r.index < n {
      assert r in rules <==> r in multiset(rules);
      assert r in all <==> r in multiset(all);
      if r.SignedBy? && 0 <= r.index < n { assert all[r.index] == r; }
    }
  }

  /******* MSP IDs *******/

  predicate AlphaNumeric(c: char) {
    'a' <= c <= 'z' || 'A' <= c <= 'Z' || '0' <= c <= '9'
  }

  /** White space as Unicode has it. */
  predicate IsSpace(c: char) {
    || c in ['\t', '\n', '\U{0B}', '\U{0C}', '\r', ' ', '\U{85}', '\U{A0}', '\U{1680}']
    || '\U{2000}' <= c <= '\U{200A}'
    || c in ['\U{2028}', '\U{2029}', '\U{202F}', '\U{205F}', '\U{3000}']
  }

  /** The complete words of a name and the one it ends in. */
  function Split(name: string): (seq<string>, string) {
    if name == [] then ([], [])
    else
      var (words, last) := Split(name[..|name| - 1]);
      var c := name[|name| - 1];
      if !IsSpace(c) then (words, last + [c])
      else (if last == [] then words else words + [last], [])
  }

  function Fields(name: string): seq<string> {
    var (words, last) := Split(name);
    if last == [] then words else words + [last]
  }

  function Filter(s: string): string {
    if s == [] then []
    else Filter(s[..|s| - 1]) + if AlphaNumeric(s[|s| - 1]) then [s[|s| - 1]] else []
  }

  function Upper(c: char): char {
    if 'a' <= c <= 'z' then c - 32 as char else c
  }

  /** A word with its first letter in upper case. */
  function Title(w: string): string {
    if w == [] then [] else [Upper(w[0])] + w[1..]
  }

  function Capitalised(words: seq<string>): string {
    if words == [] then [] else Capitalised(words[..|words| - 1]) + Title(words[|words| - 1])
  }

  lemma {:induction false} FilterIsAlphaNumeric(s: string)
    ensures forall c :: c in Filter(s) ==> AlphaNumeric(c)
  {
    if s != [] {
      FilterIsAlphaNumeric(s[..|s| - 1]);
    }
  }

  lemma {:induction false} FilterJoin(a: string, b: string)
    ensures Filter(a + b) == Filter(a) + Filter(b)
  {
    if b == [] {
      assert a + b == a;
    } else {
      FilterJoin(a, b[..|b| - 1]);
      assert (a + b)[..|a + b| - 1] == a + b[..|b| - 1];
    }
  }

  /** The same characters but for case. */
  ghost predicate SameButCase(a: string, b: string) {
    |a| == |b| && forall i :: 0 <= i < |a| ==> Upper(a[i]) == Upper(b[i])
  }

  lemma TitleLetters(w: string)
    ensures SameButCase(Filter(Title(w)), Filter(w))
  {
    if w != [] {
      assert w == [w[0]] + w[1..];
      FilterJoin([w[0]], w[1..]);
      FilterJoin([Upper(w[0])], w[1..]);
      assert Filter([w[0]]) == if AlphaNumeric(w[0]) then [w[0]] else [];
      assert Filter([Upper(w[0])]) == if AlphaNumeric(w[0]) then [Upper(w[0])] else [];
    }
  }

  lemma CapitalisedAppend(words: seq<string>, w: string)
    ensures Capitalised(words + [w]) == Capitalised(words) + Title(w)
  {
    assert (words + [w])[..|words|] == words;
  }

  lemma SameAppend(a: string, b: string, x: string, y: string)
    requires SameButCase(a, b) && SameButCase(x, y)
    ensures SameButCase(a + x, b + y)
  {
  }

  /** Going on with a word. */
  lemma MoreOfWord(done: string, last: string, more: string, letters: string)
    requires SameButCase(done + Filter(last), letters)
    ensures SameButCase(done + Filter(last + more), letters + Filter(more))
  {
    FilterJoin(last, more);
    SameAppend(done + Filter(last), letters, Filter(more), Filter(more));
    assert done + (Filter(last) + Filter(more)) == done + Filter(last) + Filter(more);
  }

  /** Finishing a word. */
  lemma WordLetters(words: seq<string>, last: string, letters: string)
    requires SameButCase(Filter(Capitalised(words)) + Filter(last), letters)
    ensures SameButCase(Filter(Capitalised(words + [last])), letters)
  {
    CapitalisedAppend(words, last);
    FilterJoin(Capitalised(words), Title(last));
    TitleLetters(last);
    var done := Filter(Capitalised(words));
    assert SameButCase(done + Filter(Title(last)), done + Filter(last)) by {
      SameAppend(done, done, Filter(Title(last)), Filter(last));
    }
  }

  /** Splitting and capitalising keep every letter and digit of the name, in order. */
  lemma {:induction false} SplitLetters(name: string)
    ensures SameButCase(Filter(Capitalised(Split(name).0)) + Filter(Split(name).1), Filter(name))
  {
    if name != [] {
      var init, c := name[..|name| - 1], name[|name| - 1];
      var (words, last) := Split(init);
      SplitLetters(init);
      if !IsSpace(c) {
        MoreOfWord(Filter(Capitalised(words)), last, [c], Filter(init));
        FilterJoin(init, [c]);
        assert name == init + [c];
      } else {
        assert Filter(name) == Filter(init);
        if last != [] {
          WordLetters(words, last, Filter(init));
        }
      }
    }
  }

  lemma FieldsLetters(name: string)
    ensures SameButCase(Filter(Capitalised(Fields(name))), Filter(name))
  {
    var (words, last) := Split(name);
    SplitLetters(name);
    if last != [] {
      WordLetters(words, last, Filter(name));
    }
  }

  lemma AlphaNumericIsSeparatorFree(s: string)
    requires forall c :: c in s ==> AlphaNumeric(c)
    ensures !HasSeparator(s)
  {
    forall i | 0 <= i <= |s| - |SEPARATOR|
      ensures !SeparatorAt(s, i)
    {
      assert s[i] in s && s[i..i + |SEPARATOR|][0] == s[i] != SEPARATOR[0];
    }
  }

  /** An organisation's name as an MSP ID: its letters and digits in order, words capitalised, and "MSP";
      never an ambiguous one. */
  method SanitizeMSP(name: string) returns (id: string)
    ensures id == Filter(Capitalised(Fields(name))) + "MSP"
    ensures SameButCase(id, Filter(name) + "MSP")
    ensures forall c :: c in id ==> AlphaNumeric(c)
    ensures !HasSeparator(id)
  {
    var joined := JoinWords(Fields(name));
    id := CleanID(joined);
    FieldsLetters(name);
    var suffix := "MSP";
    SameAppend(Filter(joined), Filter(name), suffix, suffix);
    FilterIsAlphaNumeric(joined);
    AlphaNumericIsSeparatorFree(id);
  }

  method JoinWords(words: seq<string>) returns (joined: string)
    ensures joined == Capitalised(words)
  {
    joined := [];
    for i := 0 to |words|
      invariant joined == Capitalised(words[..i])
    {
      assert words[..i + 1][..i] == words[..i];
      var w := words[i];
      if |w| > 0 {
        joined := joined + Title(w);
      }
    }
    assert words[..|words|] == words;
  }

  method CleanID(joined: string) returns (id: string)
    ensures id == Filter(joined) + "MSP"
  {
    var clean: string := [];
    for i := 0 to |joined|
      invariant clean == Filter(joined[..i])
    {
      assert joined[..i + 1][..i] == joined[..i];
      if AlphaNumeric(joined[i]) {
        clean := clean + [joined[i]];
      }
    }
    assert joined[..|joined|] == joined;
    id := clean + "MSP";
  }
}
