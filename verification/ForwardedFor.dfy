/**
 * Deriving the client address from the peer and the X-Forwarded-For chain. Address syntax and prefix membership belong
 * to the net package; they are arbitrary functions here.
 */
module ForwardedFor {
  import opened Options
  import opened Text

  const COMMA := ','

  /** net.SplitHostPort, netip.ParseAddr with the zone dropped and the address unmapped, and Prefix.Contains. */
  datatype Net<!Address, !Prefix> = Net(
    splitHost: string -> Option<string>,
    parse: string -> Option<Address>,
    contains: (Prefix, Address) -> bool)

  datatype Resolver<!Address(==), !Prefix> = Resolver(net: Net<Address, Prefix>, trusted: seq<Prefix>) {
    // ---- Specification ----

    predicate Trusts(address: Address) {
      exists k | 0 <= k < |trusted| :: net.contains(trusted[k], address)
    }

    function HostOnly(remoteAddr: string): string {
      match net.splitHost(remoteAddr)
      case Some(host) => host
      case None => remoteAddr
    }

    function ParseClientAddr(raw: string): Option<Address> {
      net.parse(TrimSpace(raw))
    }

    function Peer(remoteAddr: string): Option<Address> {
      ParseClientAddr(HostOnly(remoteAddr))
    }

    /** The scan stops at an entry that is not the address of a trusted proxy. */
    predicate Stops(entry: string) {
      var address := ParseClientAddr(entry);
      address.None? || !Trusts(address.value)
    }

    predicate HasStop(chain: seq<string>) {
      exists k | 0 <= k < |chain| :: Stops(chain[k])
    }

    /** The rightmost stop is at `i`. */
    predicate LastStop(chain: seq<string>, i: nat) {
      && i < |chain|
      && Stops(chain[i])
      && forall k | i < k < |chain| :: !Stops(chain[k])
    }

    /** What the stop yields: its address, or the peer when it is malformed. */
    function Answer(entry: string, peer: Address): Address {
      var address := ParseClientAddr(entry);
      if address.Some? then address.value else peer
    }

    /** `answer` is what step 3 and step 4 of the algorithm prescribe. */
    ghost predicate Prescribed(chain: seq<string>, peer: Address, answer: Address) {
      if HasStop(chain) then exists i: nat :: LastStop(chain, i) && answer == Answer(chain[i], peer)
      else answer == peer
    }

    ghost predicate Resolves(remoteAddr: string, values: seq<string>, answer: Option<Address>) {
      match Peer(remoteAddr)
      case None => answer == None
      case Some(peer) =>
        answer.Some? && if Trusts(peer) then Prescribed(Chain(values), peer, answer.value) else answer.value == peer
    }

    // ---- The program ----

    method IsTrusted(address: Address) returns (found: bool)
      ensures found <==> exists k | 0 <= k < |trusted| :: net.contains(trusted[k], address)
    {
      for i := 0 to |trusted|
        invariant forall k | 0 <= k < i :: !net.contains(trusted[k], address)
      {
        if net.contains(trusted[i], address) {
          return true;
        }
      }
      return false;
    }

    method ClientIP(remoteAddr: string, values: seq<string>) returns (answer: Option<Address>)
      ensures Resolves(remoteAddr, values, answer)
    {
      var peer := ParseClientAddr(HostOnly(remoteAddr));
      if peer.None? {
        return None;
      }
      var trustedPeer := IsTrusted(peer.value);
      if !trustedPeer {
        return peer;
      }
      var chain := ForwardedChain(values);
      var i := |chain|;
      while i > 0
        invariant 0 <= i <= |chain|
        invariant forall k | i <= k < |chain| :: !Stops(chain[k])
      {
        i := i - 1;
        var address := ParseClientAddr(chain[i]);
        if address.None? {
          assert LastStop(chain, i);
          return peer;
        }
        var known := IsTrusted(address.value);
        if !known {
          assert LastStop(chain, i);
          return address;
        }
      }
      return peer;
    }

    // ---- Properties ----

    /** The host of the peer: without its port where it has one, and otherwise as it stands. */
    predicate IsHost(remoteAddr: string, host: string) {
      || net.splitHost(remoteAddr) == Some(host)
      || (net.splitHost(remoteAddr).None? && host == remoteAddr)
    }

    /** An unparsable peer has no answer; an untrusted one is the answer, whatever the header holds. */
    lemma PeerDecides(remoteAddr: string, host: string, values: seq<string>, answer: Option<Address>)
      requires IsHost(remoteAddr, host)
      ensures net.parse(TrimSpace(host)).None? ==> (Resolves(remoteAddr, values, answer) <==> answer == None)
      ensures net.parse(TrimSpace(host)).Some? && !Trusts(net.parse(TrimSpace(host)).value) ==>
                (Resolves(remoteAddr, values, answer) <==> answer == net.parse(TrimSpace(host)))
    {
    }

    /** An entry that is the address of a trusted proxy. */
    predicate IsProxy(entry: string) {
      net.parse(entry).Some? && Trusts(net.parse(entry).value)
    }

    lemma EntriesAreParsedAsTheyStand(values: seq<string>, k: nat)
      requires k < |Chain(values)|
      ensures ParseClientAddr(Chain(values)[k]) == net.parse(Chain(values)[k])
    {
      ChainIsClean(values, 0);
      assert Clean(Chain(values)[k]);
      TrimmedStays(Chain(values)[k]);
    }

    /**
     * Behind a trusted peer, the rightmost entry that is not a trusted proxy is the answer, or the peer is if that
     * entry is no address; so it is if there is no such entry.
     */
    lemma RightmostDecides(remoteAddr: string, host: string, values: seq<string>, i: int, answer: Option<Address>)
      requires IsHost(remoteAddr, host)
      requires net.parse(TrimSpace(host)).Some? && Trusts(net.parse(TrimSpace(host)).value)
      requires -1 <= i < |Chain(values)| && forall k | i < k < |Chain(values)| :: IsProxy(Chain(values)[k])
      ensures i == -1 ==> (Resolves(remoteAddr, values, answer) <==> answer == net.parse(TrimSpace(host)))
      ensures i >= 0 && net.parse(Chain(values)[i]).None? ==>
                (Resolves(remoteAddr, values, answer) <==> answer == net.parse(TrimSpace(host)))
      ensures i >= 0 && net.parse(Chain(values)[i]).Some? && !IsProxy(Chain(values)[i]) ==>
                (Resolves(remoteAddr, values, answer) <==> answer == net.parse(Chain(values)[i]))
    {
      var chain, peer := Chain(values), net.parse(TrimSpace(host)).value;
      forall k | 0 <= k < |chain| ensures Stops(chain[k]) <==> !IsProxy(chain[k]) {
        EntriesAreParsedAsTheyStand(values, k);
      }
      if i >= 0 && !IsProxy(chain[i]) && answer.Some? {
        EntriesAreParsedAsTheyStand(values, i);
        assert LastStop(chain, i);
        LastStopDecides(chain, i, peer, answer.value);
      }
    }

    /** The prescription leaves no choice, so every request has one answer. */
    lemma AnswerIsUnique(remoteAddr: string, values: seq<string>, a: Option<Address>, b: Option<Address>)
      requires Resolves(remoteAddr, values, a) && Resolves(remoteAddr, values, b)
      ensures a == b
    {
      var peer := Peer(remoteAddr);
      if peer.Some? && Trusts(peer.value) && HasStop(Chain(values)) {
        var i: nat :| LastStop(Chain(values), i) && a.value == Answer(Chain(values)[i], peer.value);
        var j: nat :| LastStop(Chain(values), j) && b.value == Answer(Chain(values)[j], peer.value);
        assert !(i < j) && !(j < i);
      }
    }

    /** An answer other than the peer is an untrusted entry with only trusted addresses to its right. */
    lemma AnswerIsUntrusted(remoteAddr: string, values: seq<string>, answer: Address)
      requires Resolves(remoteAddr, values, Some(answer)) && Peer(remoteAddr) != Some(answer)
      ensures !Trusts(answer)
      ensures exists i | 0 <= i < |Chain(values)| ::
                && ParseClientAddr(Chain(values)[i]) == Some(answer)
                && forall k | i < k < |Chain(values)| ::
                     var hop := ParseClientAddr(Chain(values)[k]); hop.Some? && Trusts(hop.value)
    {
      var peer := Peer(remoteAddr).value;
      var chain := Chain(values);
      assert HasStop(chain);
      var i: nat :| LastStop(chain, i) && answer == Answer(chain[i], peer);
      assert ParseClientAddr(chain[i]) == Some(answer);
      forall k | i < k < |chain|
        ensures var hop := ParseClientAddr(chain[k]); hop.Some? && Trusts(hop.value)
      {
        assert !Stops(chain[k]);
      }
    }

    /** What stands to the left of a stop has no say. */
    lemma PrefixIsIgnored(prefix: seq<string>, chain: seq<string>, peer: Address, answer: Address)
      requires HasStop(chain)
      ensures Prescribed(prefix + chain, peer, answer) <==> Prescribed(chain, peer, answer)
    {
      HasLastStop(chain);
      var i: nat :| LastStop(chain, i);
      LastStopShifts(prefix, chain, i);
      LastStopDecides(chain, i, peer, answer);
      LastStopDecides(prefix + chain, |prefix| + i, peer, answer);
    }

    /** Without a stop of its own, a chain leaves the decision to what stands to its left. */
    lemma PrefixDecides(prefix: seq<string>, chain: seq<string>, peer: Address, answer: Address)
      requires !HasStop(chain)
      ensures Prescribed(prefix + chain, peer, answer) <==> Prescribed(prefix, peer, answer)
    {
      if HasStop(prefix) {
        HasLastStop(prefix);
        var i: nat :| LastStop(prefix, i);
        LastStopStays(prefix, chain, i);
        LastStopDecides(prefix, i, peer, answer);
        LastStopDecides(prefix + chain, i, peer, answer);
      } else {
        NoStopInBoth(prefix, chain);
      }
    }

    lemma NoStopInBoth(prefix: seq<string>, chain: seq<string>)
      requires !HasStop(prefix) && !HasStop(chain)
      ensures !HasStop(prefix + chain)
    {
      var all := prefix + chain;
      forall k | 0 <= k < |all| ensures !Stops(all[k]) {
        assert if k < |prefix| then all[k] == prefix[k] else all[k] == chain[k - |prefix|];
      }
    }

    lemma LastStopShifts(prefix: seq<string>, chain: seq<string>, i: nat)
      requires LastStop(chain, i)
      ensures LastStop(prefix + chain, |prefix| + i)
      ensures (prefix + chain)[|prefix| + i] == chain[i]
    {
      var all := prefix + chain;
      forall k | |prefix| + i < k < |all| ensures !Stops(all[k]) {
        assert all[k] == chain[k - |prefix|];
      }
    }

    lemma LastStopStays(prefix: seq<string>, chain: seq<string>, i: nat)
      requires LastStop(prefix, i) && !HasStop(chain)
      ensures LastStop(prefix + chain, i)
      ensures (prefix + chain)[i] == prefix[i]
    {
      var all := prefix + chain;
      forall k | i < k < |all| ensures !Stops(all[k]) {
        assert if k < |prefix| then all[k] == prefix[k] else all[k] == chain[k - |prefix|];
      }
    }

    lemma LastStopDecides(chain: seq<string>, i: nat, peer: Address, answer: Address)
      requires LastStop(chain, i)
      ensures Prescribed(chain, peer, answer) <==> answer == Answer(chain[i], peer)
    {
      assert HasStop(chain);
      forall j: nat | LastStop(chain, j) ensures j == i {
      }
    }

    lemma HasLastStop(chain: seq<string>)
      requires HasStop(chain)
      ensures exists i: nat :: LastStop(chain, i)
    {
      var k :| 0 <= k < |chain| && Stops(chain[k]);
      LastStopBelow(chain, k, |chain|);
    }

    lemma {:induction false} LastStopBelow(chain: seq<string>, k: nat, n: nat)
      requires k < n <= |chain| && Stops(chain[k])
      requires forall j | n <= j < |chain| :: !Stops(chain[j])
      ensures exists i: nat :: LastStop(chain, i)
    {
      if Stops(chain[n - 1]) {
        assert LastStop(chain, n - 1);
      } else {
        LastStopBelow(chain, k, n - 1);
      }
    }

    /**
     * A client chooses the header lines `forged` and the text in front of the value its request ends up in; our own
     * infrastructure appended `own`, to that text or as a line of its own. If the appended part holds an untrusted or
     * malformed entry, nothing forged changes the answer.
     */
    lemma ForgeryHasNoEffect(remoteAddr: string, forged: seq<string>, text: string, own: string,
                             answer: Option<Address>)
      requires HasStop(Chain([own]))
      ensures Resolves(remoteAddr, forged + [text + ([COMMA] + own)], answer) <==> Resolves(remoteAddr, [own], answer)
      ensures Resolves(remoteAddr, forged + [own], answer) <==> Resolves(remoteAddr, [own], answer)
    {
      ChainOfLines(forged, [text + ([COMMA] + own)]);
      ChainOfLines(forged, [own]);
      ChainOfOneLine(text, own);
      Assoc(Chain(forged), Chain([text]), Chain([own]));
      var peer := Peer(remoteAddr);
      if peer.Some? && Trusts(peer.value) && answer.Some? {
        PrefixIsIgnored(Chain(forged) + Chain([text]), Chain([own]), peer.value, answer.value);
        PrefixIsIgnored(Chain(forged), Chain([own]), peer.value, answer.value);
      }
    }

    /** Splitting the list over header lines changes no answer. */
    lemma LinesAreOneList(remoteAddr: string, values: seq<string>, answer: Option<Address>)
      ensures Resolves(remoteAddr, values, answer) <==> Resolves(remoteAddr, [Join(values, COMMA)], answer)
    {
      ChainOfJoined(values);
    }
  }

  // ---- The chain ----

  /** The entry of one part, if it is not empty, without the space around it. */
  function Entry(part: string): seq<string> {
    if TrimSpace(part) == "" then [] else [TrimSpace(part)]
  }

  function EntriesFrom(parts: seq<string>, j: nat): seq<string>
    requires j <= |parts|
    decreases |parts| - j
  {
    if j == |parts| then [] else Entry(parts[j]) + EntriesFrom(parts, j + 1)
  }

  function Entries(value: string): seq<string> {
    EntriesFrom(Split(value, COMMA), 0)
  }

  function ChainFrom(values: seq<string>, i: nat): seq<string>
    requires i <= |values|
    decreases |values| - i
  {
    if i == |values| then [] else Entries(values[i]) + ChainFrom(values, i + 1)
  }

  function Chain(values: seq<string>): seq<string> {
    ChainFrom(values, 0)
  }

  method ForwardedChain(values: seq<string>) returns (chain: seq<string>)
    ensures chain == Chain(values)
  {
    chain := [];
    NilLeft(Chain(values));
    for i := 0 to |values|
      invariant chain + ChainFrom(values, i) == Chain(values)
    {
      var parts := Split(values[i], COMMA);
      ghost var before := chain;
      for j := 0 to |parts|
        invariant chain + EntriesFrom(parts, j) == before + Entries(values[i])
      {
        Assoc(chain, Entry(parts[j]), EntriesFrom(parts, j + 1));
        NilRight(chain);
        var entry := TrimSpace(parts[j]);
        if entry != "" {
          chain := chain + [entry];
        }
      }
      NilRight(chain);
      Assoc(before, Entries(values[i]), ChainFrom(values, i + 1));
    }
    NilRight(chain);
  }

  lemma {:induction false} EntriesShift(a: seq<string>, b: seq<string>, j: nat)
    requires j <= |b|
    ensures EntriesFrom(a + b, |a| + j) == EntriesFrom(b, j)
    decreases |b| - j
  {
    if j < |b| {
      EntriesShift(a, b, j + 1);
    }
  }

  lemma {:induction false} EntriesOfBoth(a: seq<string>, b: seq<string>, i: nat)
    requires i <= |a|
    ensures EntriesFrom(a + b, i) == EntriesFrom(a, i) + EntriesFrom(b, 0)
    decreases |a| - i
  {
    if i == |a| {
      EntriesShift(a, b, 0);
      NilLeft(EntriesFrom(b, 0));
    } else {
      EntriesOfBoth(a, b, i + 1);
      Assoc(Entry(a[i]), EntriesFrom(a, i + 1), EntriesFrom(b, 0));
    }
  }

  lemma {:induction false} ChainShift(a: seq<string>, b: seq<string>, j: nat)
    requires j <= |b|
    ensures ChainFrom(a + b, |a| + j) == ChainFrom(b, j)
    decreases |b| - j
  {
    if j < |b| {
      ChainShift(a, b, j + 1);
    }
  }

  lemma {:induction false} ChainOfBoth(a: seq<string>, b: seq<string>, i: nat)
    requires i <= |a|
    ensures ChainFrom(a + b, i) == ChainFrom(a, i) + Chain(b)
    decreases |a| - i
  {
    if i == |a| {
      ChainShift(a, b, 0);
      NilLeft(Chain(b));
    } else {
      ChainOfBoth(a, b, i + 1);
      Assoc(Entries(a[i]), ChainFrom(a, i + 1), Chain(b));
    }
  }

  lemma ChainOfLines(a: seq<string>, b: seq<string>)
    ensures Chain(a + b) == Chain(a) + Chain(b)
  {
    ChainOfBoth(a, b, 0);
  }

  lemma ChainOfOne(value: string)
    ensures Chain([value]) == Entries(value)
  {
    assert ChainFrom([value], 1) == [];
    NilRight(Entries(value));
  }

  /** A comma inside a line separates exactly as a line break between two lines does. */
  lemma ChainOfOneLine(a: string, b: string)
    ensures Chain([a + ([COMMA] + b)]) == Chain([a]) + Chain([b])
  {
    SplitBoth(a, b, COMMA);
    EntriesOfBoth(Split(a, COMMA), Split(b, COMMA), 0);
    ChainOfOne(a);
    ChainOfOne(b);
    ChainOfOne(a + ([COMMA] + b));
  }

  /** However the list is split over header lines, it is the list of the comma-joined value. */
  lemma {:induction false} ChainOfJoined(values: seq<string>)
    ensures Chain([Join(values, COMMA)]) == Chain(values)
  {
    if |values| == 0 {
      ChainOfOne("");
      assert EntriesFrom([""], 1) == [] && Entry("") == [];
    } else if |values| == 1 {
      assert values == [values[0]];
    } else {
      ChainOfJoined(values[1..]);
      ChainOfOneLine(values[0], Join(values[1..], COMMA));
      ChainOfLines([values[0]], values[1..]);
      assert values == [values[0]] + values[1..];
    }
  }

  /** A chain entry is never empty, has no space around it and holds no comma. */
  predicate Clean(entry: string) {
    entry != "" && Trimmed(entry) && COMMA !in entry
  }

  predicate AllClean(entries: seq<string>) {
    forall k | 0 <= k < |entries| :: Clean(entries[k])
  }

  lemma {:induction false} EntriesAreClean(parts: seq<string>, j: nat)
    requires j <= |parts| && forall k | 0 <= k < |parts| :: COMMA !in parts[k]
    ensures AllClean(EntriesFrom(parts, j))
    decreases |parts| - j
  {
    if j < |parts| {
      EntriesAreClean(parts, j + 1);
      TrimSpaceTrims(parts[j], COMMA);
    }
  }

  lemma {:induction false} ChainIsClean(values: seq<string>, i: nat)
    requires i <= |values|
    ensures AllClean(ChainFrom(values, i))
    decreases |values| - i
  {
    if i < |values| {
      ChainIsClean(values, i + 1);
      NoSeparatorInParts(values[i], COMMA);
      EntriesAreClean(Split(values[i], COMMA), 0);
    }
  }

  lemma {:induction false} EntriesStay(entries: seq<string>, j: nat)
    requires j <= |entries| && AllClean(entries)
    ensures EntriesFrom(entries, j) == entries[j..]
    decreases |entries| - j
  {
    if j < |entries| {
      EntriesStay(entries, j + 1);
      assert Clean(entries[j]);
      TrimmedStays(entries[j]);
      assert entries[j..] == [entries[j]] + entries[j + 1..];
    }
  }

  /** Joining the chain with commas and taking it apart again gives the same chain. */
  lemma RejoinedChain(values: seq<string>)
    ensures Chain([Join(Chain(values), COMMA)]) == Chain(values)
  {
    var chain := Chain(values);
    ChainIsClean(values, 0);
    if chain == [] {
      ChainOfJoined([]);
    } else {
      assert forall k | 0 <= k < |chain| :: Clean(chain[k]);
      SplitJoin(chain, COMMA);
      EntriesStay(chain, 0);
      ChainOfOne(Join(chain, COMMA));
    }
  }

  lemma {:induction false} EntriesOfSpaced(entries: seq<string>, parts: seq<string>, j: nat)
    requires |parts| == |entries| && j <= |parts|
    requires forall k | 0 <= k < |parts| :: IsSpaced(entries[k], parts[k]) && Trimmed(entries[k]) && entries[k] != ""
    ensures EntriesFrom(parts, j) == entries[j..]
    decreases |parts| - j
  {
    if j < |parts| {
      EntriesOfSpaced(entries, parts, j + 1);
      var before, after :| AllSpace(before) && AllSpace(after) && parts[j] == before + entries[j] + after;
      TrimSpaceOf(before, entries[j], after);
      assert entries[j..] == [entries[j]] + entries[j + 1..];
    }
  }

  /** `part` is `entry` with white space around it. */
  ghost predicate IsSpaced(entry: string, part: string) {
    exists before, after :: AllSpace(before) && AllSpace(after) && part == before + entry + after
  }

  /** Clean entries come out of one line as they went in, in order, whatever space stands around each of them. */
  lemma ChainOfSpaced(entries: seq<string>, parts: seq<string>)
    requires |parts| == |entries| > 0 && AllClean(entries)
    requires forall k | 0 <= k < |parts| :: IsSpaced(entries[k], parts[k])
    ensures Chain([Join(parts, COMMA)]) == entries
  {
    forall k | 0 <= k < |parts| ensures Clean(entries[k]) && COMMA !in parts[k] {
      assert Clean(entries[k]);
      var before, after :| AllSpace(before) && AllSpace(after) && parts[k] == before + entries[k] + after;
    }
    SplitJoin(parts, COMMA);
    EntriesOfSpaced(entries, parts, 0);
    ChainOfOne(Join(parts, COMMA));
  }

  /** One entry comes out of its line without the space around it, and nothing comes out of a line of space. */
  lemma ChainOfOneEntry(before: string, entry: string, after: string)
    requires forall c | c in before + after :: c == ' ' || c == '\t'
    requires Clean(entry)
    ensures Chain([before + entry + after]) == [entry]
    ensures Chain([before]) == []
  {
    assert AllSpace(before) && AllSpace(after) by {
      assert forall k | 0 <= k < |before| :: before[k] in before + after;
      assert forall k | 0 <= k < |after| :: after[k] in before + after;
    }
    assert IsSpaced(entry, before + entry + after);
    ChainOfSpaced([entry], [before + entry + after]);
    SplitNone(before, COMMA);
    ChainOfOne(before);
    TrimSpaceOf(before, "", "");
    assert before + "" + "" == before;
    assert EntriesFrom([before], 1) == [];
  }
}
