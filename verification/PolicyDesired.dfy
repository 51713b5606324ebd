/** What the bypass list holds and in which order, said of its sources and not of the
    loops that build it. */
module PolicyDesired {
  import opened Options
  import opened Numbers
  import opened Text
  import opened Address
  import opened PolicyRules
  import opened PolicyPlan
  import opened PolicyMeaning
  import opened PolicyRouting

  // ---- what the sources offer ---------------------------------------------------

  datatype Source = Server | DnsList | DnsServers | MainTable

  function Rank(s: Source): nat {
    match s
    case Server => 0
    case DnsList => 1
    case DnsServers => 2
    case MainTable => 3
  }

  /** What the name lookup answers for a server that is not a literal. */
  function Answers(f: AddrFormat, inp: Inputs): seq<Resolved> {
    if inp.server.None? || CanonicalPrefix(f, inp.server.value).Some? || TrimSpace(inp.server.value) == "" then []
    else
      var addrs := inp.lookup(TrimSpace(inp.server.value));
      if addrs.None? then [] else addrs.value
  }

  /** Resolved addresses have no more bits than their family. */
  ghost predicate Resolves(f: AddrFormat, inp: Inputs) {
    forall a :: a in Answers(f, inp) ==> a.addr < Pow2(a.bits)
  }

  /** The prefix that entry k of a source stands for, if it stands for one. */
  function Offered(f: AddrFormat, inp: Inputs, s: Source, k: nat): Option<string> {
    match s
    case Server =>
      if inp.server.Some? && CanonicalPrefix(f, inp.server.value).Some? then
        if k == 0 then CanonicalPrefix(f, inp.server.value) else None
      else if k < |Answers(f, inp)| then HostPrefix(f, Answers(f, inp)[k])
      else None
    case DnsList => if k < |inp.dnsList| then CanonicalPrefix(f, inp.dnsList[k]) else None
    case DnsServers => if k < |inp.dnsServers| then CanonicalPrefix(f, inp.dnsServers[k]) else None
    case MainTable => if k < |inp.mainRoutes| then RoutePrefix(f, inp.mainRoutes[k]) else None
  }

  /** An address of the family stands for its full-length prefix. */
  function HostPrefix(f: AddrFormat, a: Resolved): Option<string> {
    if a.bits == f.bits then Some(PrefixText(f, Prefix(a.addr, a.bits))) else None
  }

  /** A line of the main table stands for its first field, unless that is "default". */
  function RoutePrefix(f: AddrFormat, line: string): Option<string> {
    if Fields(line) == [] || Fields(line)[0] == "default" then None else CanonicalPrefix(f, Fields(line)[0])
  }

  // ---- candidates by place ------------------------------------------------------

  // Below, every source is written as a list of raw candidates, one for each entry,
  // where the empty text stands for nothing.

  lemma NothingOffered(f: AddrFormat)
    ensures CanonicalPrefix(f, "") == None
  {
  }

  lemma CanonicalTwice(f: AddrFormat, raw: string)
    requires Faithful(f) && CanonicalPrefix(f, raw).Some?
    ensures CanonicalPrefix(f, CanonicalPrefix(f, raw).value) == CanonicalPrefix(f, raw)
  {
    ParsedPrefixIsValid(f, raw);
    PrefixRoundTrip(f, ParseBypassPrefix(f, raw).value);
  }

  function HostText(f: AddrFormat, a: Resolved): string {
    var p := HostPrefix(f, a);
    if p.None? then "" else p.value
  }

  function HostTexts(f: AddrFormat, addrs: seq<Resolved>): (texts: seq<string>)
    ensures |texts| == |addrs| && forall k :: 0 <= k < |texts| ==> texts[k] == HostText(f, addrs[k])
  {
    seq(|addrs|, k requires 0 <= k < |addrs| => HostText(f, addrs[k]))
  }

  function RouteHead(line: string): string {
    if Fields(line) == [] || Fields(line)[0] == "default" then "" else Fields(line)[0]
  }

  function RouteHeads(lines: seq<string>): (heads: seq<string>)
    ensures |heads| == |lines| && forall k :: 0 <= k < |heads| ==> heads[k] == RouteHead(lines[k])
  {
    seq(|lines|, k requires 0 <= k < |lines| => RouteHead(lines[k]))
  }

  lemma HostTextIsCanonical(f: AddrFormat, a: Resolved)
    requires Faithful(f) && a.addr < Pow2(a.bits)
    ensures CanonicalPrefix(f, HostText(f, a)) == HostPrefix(f, a)
  {
    if a.bits == f.bits { PrefixRoundTrip(f, Prefix(a.addr, f.bits)); }
  }

  lemma HostByPlace(f: AddrFormat, acc: seq<string>, a: Resolved)
    requires Faithful(f) && a.addr < Pow2(a.bits)
    ensures AddHost(f, acc, a) == AddTarget(f, acc, HostText(f, a))
  {
    HostTextIsCanonical(f, a);
  }

  lemma HostStep(f: AddrFormat, front: seq<Resolved>, last: Resolved)
    ensures HostTexts(f, front + [last]) == HostTexts(f, front) + [HostText(f, last)]
    ensures AddHosts(f, front + [last]) == AddHost(f, AddHosts(f, front), last)
  {
    assert (front + [last])[..|front + [last]| - 1] == front;
  }

  lemma HostsNext(f: AddrFormat, front: seq<Resolved>, last: Resolved)
    requires Faithful(f) && last.addr < Pow2(last.bits) && AddHosts(f, front) == AddTargets(f, [], HostTexts(f, front))
    ensures AddHosts(f, front + [last]) == AddTargets(f, [], HostTexts(f, front + [last]))
  {
    HostStep(f, front, last);
    HostByPlace(f, AddHosts(f, front), last);
    AddOne(f, [], HostTexts(f, front), HostText(f, last));
  }

  lemma {:induction false} HostsByPlace(f: AddrFormat, addrs: seq<Resolved>)
    requires Faithful(f) && forall a :: a in addrs ==> a.addr < Pow2(a.bits)
    ensures AddHosts(f, addrs) == AddTargets(f, [], HostTexts(f, addrs))
  {
    if addrs == [] {
      assert HostTexts(f, addrs) == [];
    } else {
      HostsByPlace(f, addrs[..|addrs| - 1]);
      HostsNext(f, addrs[..|addrs| - 1], addrs[|addrs| - 1]);
      assert addrs == addrs[..|addrs| - 1] + [addrs[|addrs| - 1]];
    }
  }

  /** Candidates that stand for the same prefix, or for none, change a list alike. */
  lemma AddAlike(f: AddrFormat, acc: seq<string>, a: seq<string>, b: seq<string>, x: string, y: string)
    requires AddTargets(f, acc, a) == AddTargets(f, acc, b) && CanonicalPrefix(f, x) == CanonicalPrefix(f, y)
    ensures AddTargets(f, acc, a + [x]) == AddTargets(f, acc, b + [y])
  {
    AddOne(f, acc, a, x);
    AddOne(f, acc, b, y);
  }

  lemma AddNone(f: AddrFormat, acc: seq<string>, a: seq<string>, x: string)
    requires CanonicalPrefix(f, x) == None
    ensures AddTargets(f, acc, a + [x]) == AddTargets(f, acc, a)
  {
    AddOne(f, acc, a, x);
  }

  lemma {:induction false} ParsedByPlace(f: AddrFormat, acc: seq<string>, raws: seq<string>)
    requires Faithful(f)
    ensures AddTargets(f, acc, ParsedTexts(f, raws)) == AddTargets(f, acc, raws)
    decreases |raws|
  {
    if raws != [] {
      var (front, last) := (raws[..|raws| - 1], raws[|raws| - 1]);
      ParsedByPlace(f, acc, front);
      assert raws == front + [last];
      if CanonicalPrefix(f, last).Some? {
        CanonicalTwice(f, last);
        AddAlike(f, acc, ParsedTexts(f, front), front, CanonicalPrefix(f, last).value, last);
      } else {
        AddNone(f, acc, front, last);
        assert ParsedTexts(f, raws) == ParsedTexts(f, front);
      }
    }
  }

  /** What a line of the main table adds to the candidates: its first field, or nothing. */
  function RouteEntry(line: string): seq<string> {
    if Fields(line) == [] || Fields(line)[0] == "default" then [] else [Fields(line)[0]]
  }

  lemma RouteStep(front: seq<string>, last: string)
    ensures RouteHeads(front + [last]) == RouteHeads(front) + [RouteHead(last)]
    ensures RouteTargets(front + [last]) == RouteTargets(front) + RouteEntry(last)
  {
    assert (front + [last])[..|front + [last]| - 1] == front;
  }

  lemma RoutesAlike(f: AddrFormat, acc: seq<string>, targets: seq<string>, heads: seq<string>, last: string)
    requires AddTargets(f, acc, targets) == AddTargets(f, acc, heads)
    ensures AddTargets(f, acc, targets + RouteEntry(last)) == AddTargets(f, acc, heads + [RouteHead(last)])
  {
    if RouteEntry(last) == [] {
      NothingOffered(f);
      AddNone(f, acc, heads, "");
      assert targets + [] == targets;
    } else {
      AddAlike(f, acc, targets, heads, Fields(last)[0], Fields(last)[0]);
    }
  }

  lemma RoutesNext(f: AddrFormat, acc: seq<string>, front: seq<string>, last: string)
    requires AddTargets(f, acc, RouteTargets(front)) == AddTargets(f, acc, RouteHeads(front))
    ensures AddTargets(f, acc, RouteTargets(front + [last])) == AddTargets(f, acc, RouteHeads(front + [last]))
  {
    RouteStep(front, last);
    RoutesAlike(f, acc, RouteTargets(front), RouteHeads(front), last);
  }

  lemma {:induction false} RoutesByPlace(f: AddrFormat, acc: seq<string>, lines: seq<string>)
    ensures AddTargets(f, acc, RouteTargets(lines)) == AddTargets(f, acc, RouteHeads(lines))
    decreases |lines|
  {
    if lines == [] {
      assert RouteHeads(lines) == [];
    } else {
      RoutesByPlace(f, acc, lines[..|lines| - 1]);
      RoutesNext(f, acc, lines[..|lines| - 1], lines[|lines| - 1]);
      assert lines == lines[..|lines| - 1] + [lines[|lines| - 1]];
    }
  }

  /** Adding a bypass list to nothing gives that list. */
  lemma {:induction false} AddAgain(f: AddrFormat, list: seq<string>)
    requires Faithful(f) && BypassList(f, list)
    ensures AddTargets(f, [], list) == list
    decreases |list|
  {
    if list != [] {
      var (front, last) := (list[..|list| - 1], list[|list| - 1]);
      AddAgain(f, front);
      AddOne(f, [], front, last);
      assert list == front + [last];
      assert last in list;
      var p :| ValidPrefix(f, p) && last == PrefixText(f, p);
      PrefixRoundTrip(f, p);
    }
  }

  /** The raw candidates of the server. */
  function ServerTexts(f: AddrFormat, inp: Inputs): seq<string> {
    if inp.server.Some? && CanonicalPrefix(f, inp.server.value).Some? then [CanonicalPrefix(f, inp.server.value).value]
    else HostTexts(f, Answers(f, inp))
  }

  lemma ServerByPlace(f: AddrFormat, inp: Inputs)
    requires Faithful(f) && Resolves(f, inp)
    ensures AddTargets(f, [], FirstCandidates(f, inp)) == AddTargets(f, [], ServerTexts(f, inp))
  {
    if inp.server.Some? && CanonicalPrefix(f, inp.server.value).None? {
      HostsByPlace(f, Answers(f, inp));
      AddTargetsIsBypassList(f, [], HostTexts(f, Answers(f, inp)));
      AddAgain(f, FirstCandidates(f, inp));
    }
  }

  function Lists(f: AddrFormat, inp: Inputs): seq<seq<string>> {
    [ServerTexts(f, inp), inp.dnsList, inp.dnsServers, RouteHeads(inp.mainRoutes)]
  }

  /** Four lists, one behind the other. */
  function Joined(lists: seq<seq<string>>): seq<string>
    requires |lists| == 4
  {
    lists[0] + (lists[1] + (lists[2] + lists[3]))
  }

  lemma DesiredByPlace(f: AddrFormat, inp: Inputs)
    requires Faithful(f) && Resolves(f, inp)
    ensures Desired(f, inp) == AddTargets(f, [], Joined(Lists(f, inp)))
    ensures AddTargets(f, [], ServerTexts(f, inp)) <= Desired(f, inp)
  {
    var (a, b, c, d) := (ServerTexts(f, inp), inp.dnsList, inp.dnsServers, RouteHeads(inp.mainRoutes));
    var (first, second, third) := (FirstCandidates(f, inp), ParsedTexts(f, b), ParsedTexts(f, c));
    var fourth := RouteTargets(inp.mainRoutes);
    ServerByPlace(f, inp);
    var one := AddTargets(f, [], a);
    ParsedByPlace(f, one, b);
    var two := AddTargets(f, one, b);
    ParsedByPlace(f, two, c);
    RoutesByPlace(f, AddTargets(f, two, c), inp.mainRoutes);
    AddTargetsExtends(f, [], first, second + (third + fourth));
    AddTargetsExtends(f, one, second, third + fourth);
    AddTargetsExtends(f, two, third, fourth);
    AddTargetsExtends(f, [], a, b + (c + d));
    AddTargetsExtends(f, one, b, c + d);
    AddTargetsExtends(f, two, c, d);
  }

  // ---- order of first occurrence ------------------------------------------------

  /** Something that stands for x comes before everything that stands for y. */
  ghost predicate Precedes(stands: string -> Option<string>, raws: seq<string>, x: string, y: string) {
    exists k :: 0 <= k < |raws| && stands(raws[k]) == Some(x)
                && forall m :: 0 <= m < |raws| && stands(raws[m]) == Some(y) ==> k < m
  }

  ghost predicate FirstOccurrences(stands: string -> Option<string>, raws: seq<string>, list: seq<string>) {
    forall i, j :: 0 <= i < j < |list| ==> Precedes(stands, raws, list[i], list[j])
  }

  function Stands(f: AddrFormat): string -> Option<string> { (raw: string) => CanonicalPrefix(f, raw) }

  lemma PrecedesMore(stands: string -> Option<string>, raws: seq<string>, raw: string, x: string, y: string)
    requires Precedes(stands, raws, x, y)
    ensures Precedes(stands, raws + [raw], x, y)
  {
    var k :| 0 <= k < |raws| && stands(raws[k]) == Some(x)
             && forall m :: 0 <= m < |raws| && stands(raws[m]) == Some(y) ==> k < m;
    assert (raws + [raw])[k] == raws[k];
    assert forall m :: 0 <= m < |raws| ==> (raws + [raw])[m] == raws[m];
  }

  lemma PrecedesNew(stands: string -> Option<string>, raws: seq<string>, raw: string, x: string, y: string, k: nat)
    requires k < |raws| && stands(raws[k]) == Some(x) && forall m :: 0 <= m < |raws| ==> stands(raws[m]) != Some(y)
    ensures Precedes(stands, raws + [raw], x, y)
  {
    assert (raws + [raw])[k] == raws[k];
    assert forall m :: 0 <= m < |raws| ==> (raws + [raw])[m] == raws[m];
  }

  lemma {:induction false} ListedInOrder(f: AddrFormat, raws: seq<string>)
    ensures FirstOccurrences(Stands(f), raws, AddTargets(f, [], raws))
    decreases |raws|
  {
    if raws != [] {
      var (front, last) := (raws[..|raws| - 1], raws[|raws| - 1]);
      ListedInOrder(f, front);
      AddOne(f, [], front, last);
      assert raws == front + [last];
      var (list, all) := (AddTargets(f, [], front), AddTargets(f, [], raws));
      forall i, j | 0 <= i < j < |all| ensures Precedes(Stands(f), raws, all[i], all[j]) {
        if j < |list| {
          PrecedesMore(Stands(f), front, last, list[i], list[j]);
        } else {
          AddTargetsMember(f, [], front, list[i]);
          AddTargetsMember(f, [], front, all[j]);
          var raw :| raw in front && CanonicalPrefix(f, raw) == Some(list[i]);
          var k :| 0 <= k < |front| && front[k] == raw;
          PrecedesNew(Stands(f), front, last, list[i], all[j], k);
        }
      }
    }
  }

  // ---- places -------------------------------------------------------------------

  /** Where a source begins in the joined list. */
  function Start(lists: seq<seq<string>>, s: Source): nat
    requires |lists| == 4
  {
    match s
    case Server => 0
    case DnsList => |lists[0]|
    case DnsServers => |lists[0]| + |lists[1]|
    case MainTable => |lists[0]| + |lists[1]| + |lists[2]|
  }

  /** Entry k of s comes before entry m of t. */
  predicate Before(s: Source, k: nat, t: Source, m: nat) { Rank(s) < Rank(t) || (s == t && k < m) }

  lemma AtPlace(lists: seq<seq<string>>, s: Source, k: nat)
    requires |lists| == 4 && k < |lists[Rank(s)]|
    ensures Start(lists, s) + k < |Joined(lists)| && Joined(lists)[Start(lists, s) + k] == lists[Rank(s)][k]
  {
  }

  lemma PlaceOf(lists: seq<seq<string>>, i: nat) returns (s: Source, k: nat)
    requires |lists| == 4 && i < |Joined(lists)|
    ensures k < |lists[Rank(s)]| && i == Start(lists, s) + k && Joined(lists)[i] == lists[Rank(s)][k]
  {
    s := if i < |lists[0]| then Server
         else if i < Start(lists, DnsServers) then DnsList
         else if i < Start(lists, MainTable) then DnsServers
         else MainTable;
    k := i - Start(lists, s);
    AtPlace(lists, s, k);
  }

  lemma PlacesInOrder(lists: seq<seq<string>>, s: Source, k: nat, t: Source, m: nat)
    requires |lists| == 4 && k < |lists[Rank(s)]| && m < |lists[Rank(t)]|
    requires Start(lists, s) + k < Start(lists, t) + m
    ensures Before(s, k, t, m)
  {
  }

  lemma OfferedByServer(f: AddrFormat, inp: Inputs, k: nat)
    requires Faithful(f) && Resolves(f, inp)
    ensures Offered(f, inp, Server, k)
            == if k < |ServerTexts(f, inp)| then CanonicalPrefix(f, ServerTexts(f, inp)[k]) else None
  {
    if inp.server.Some? && CanonicalPrefix(f, inp.server.value).Some? {
      CanonicalTwice(f, inp.server.value);
    } else if k < |Answers(f, inp)| {
      HostTextIsCanonical(f, Answers(f, inp)[k]);
    }
  }

  lemma OfferedAt(f: AddrFormat, inp: Inputs, s: Source, k: nat)
    requires Faithful(f) && Resolves(f, inp)
    ensures var list := Lists(f, inp)[Rank(s)];
            Offered(f, inp, s, k) == if k < |list| then CanonicalPrefix(f, list[k]) else None
  {
    match s
    case Server => OfferedByServer(f, inp, k);
    case DnsList =>
    case DnsServers =>
    case MainTable => NothingOffered(f);
  }

  // ---- what the list holds ------------------------------------------------------

  ghost predicate IsOffered(f: AddrFormat, inp: Inputs, x: string) {
    exists s, k: nat :: Offered(f, inp, s, k) == Some(x)
  }

  lemma OfferedIffCandidate(f: AddrFormat, inp: Inputs, x: string)
    requires Faithful(f) && Resolves(f, inp)
    ensures IsOffered(f, inp, x)
            <==> exists raw :: raw in Joined(Lists(f, inp)) && CanonicalPrefix(f, raw) == Some(x)
  {
    var lists := Lists(f, inp);
    if s, k: nat :| Offered(f, inp, s, k) == Some(x) {
      OfferedAt(f, inp, s, k);
      AtPlace(lists, s, k);
      assert lists[Rank(s)][k] in Joined(lists);
    }
    if raw :| raw in Joined(lists) && CanonicalPrefix(f, raw) == Some(x) {
      var i :| 0 <= i < |Joined(lists)| && Joined(lists)[i] == raw;
      var s, k := PlaceOf(lists, i);
      OfferedAt(f, inp, s, k);
    }
  }

  /** A prefix is on the list exactly if an entry of a source stands for it. */
  lemma DesiredIffOffered(f: AddrFormat, inp: Inputs, x: string)
    requires Faithful(f) && Resolves(f, inp)
    ensures x in Desired(f, inp) <==> IsOffered(f, inp, x)
  {
    DesiredByPlace(f, inp);
    AddTargetsMember(f, [], Joined(Lists(f, inp)), x);
    OfferedIffCandidate(f, inp, x);
  }

  ghost predicate OffersSome(f: AddrFormat, inp: Inputs, s: Source, x: string) {
    exists k: nat :: Offered(f, inp, s, k) == Some(x)
  }

  lemma ServerOffers(f: AddrFormat, inp: Inputs, x: string)
    ensures OffersSome(f, inp, Server, x) <==>
              || (inp.server.Some? && CanonicalPrefix(f, inp.server.value) == Some(x))
              || (exists a :: a in Answers(f, inp) && a.bits == f.bits && x == PrefixText(f, Prefix(a.addr, f.bits)))
  {
    if inp.server.Some? && CanonicalPrefix(f, inp.server.value) == Some(x) {
      assert Offered(f, inp, Server, 0) == Some(x);
    }
    if a :| a in Answers(f, inp) && a.bits == f.bits && x == PrefixText(f, Prefix(a.addr, f.bits)) {
      var k :| 0 <= k < |Answers(f, inp)| && Answers(f, inp)[k] == a;
      assert Offered(f, inp, Server, k) == Some(x);
    }
  }

  /** Some entry of a DNS setting stands for x. */
  ghost predicate Names(f: AddrFormat, raws: seq<string>, x: string) {
    exists raw :: raw in raws && CanonicalPrefix(f, raw) == Some(x)
  }

  lemma DnsListOffers(f: AddrFormat, inp: Inputs, x: string)
    ensures OffersSome(f, inp, DnsList, x) <==> Names(f, inp.dnsList, x)
  {
    if raw :| raw in inp.dnsList && CanonicalPrefix(f, raw) == Some(x) {
      var k :| 0 <= k < |inp.dnsList| && inp.dnsList[k] == raw;
      assert Offered(f, inp, DnsList, k) == Some(x);
    }
  }

  lemma DnsServersOffer(f: AddrFormat, inp: Inputs, x: string)
    ensures OffersSome(f, inp, DnsServers, x) <==> Names(f, inp.dnsServers, x)
  {
    if raw :| raw in inp.dnsServers && CanonicalPrefix(f, raw) == Some(x) {
      var k :| 0 <= k < |inp.dnsServers| && inp.dnsServers[k] == raw;
      assert Offered(f, inp, DnsServers, k) == Some(x);
    }
  }

  /** The first field of some line of a table, not "default", stands for x. */
  ghost predicate RoutesTo(f: AddrFormat, lines: seq<string>, x: string) {
    exists line :: line in lines && Fields(line) != [] && Fields(line)[0] != "default"
                   && CanonicalPrefix(f, Fields(line)[0]) == Some(x)
  }

  lemma MainTableOffers(f: AddrFormat, inp: Inputs, x: string)
    ensures OffersSome(f, inp, MainTable, x) <==> RoutesTo(f, inp.mainRoutes, x)
  {
    if k: nat :| Offered(f, inp, MainTable, k) == Some(x) {
      assert inp.mainRoutes[k] in inp.mainRoutes;
    }
    if line :| line in inp.mainRoutes && Fields(line) != [] && Fields(line)[0] != "default"
               && CanonicalPrefix(f, Fields(line)[0]) == Some(x) {
      var k :| 0 <= k < |inp.mainRoutes| && inp.mainRoutes[k] == line;
      assert Offered(f, inp, MainTable, k) == Some(x);
    }
  }

  lemma OfferedBySome(f: AddrFormat, inp: Inputs, x: string)
    ensures IsOffered(f, inp, x) <==>
              || OffersSome(f, inp, Server, x) || OffersSome(f, inp, DnsList, x)
              || OffersSome(f, inp, DnsServers, x) || OffersSome(f, inp, MainTable, x)
  {
    if s, k: nat :| Offered(f, inp, s, k) == Some(x) {
      assert OffersSome(f, inp, s, x);
      match s
      case Server =>
      case DnsList =>
      case DnsServers =>
      case MainTable =>
    }
  }

  /** The same, source by source: the server's literal, an address of the family that its
      name resolves to, an entry of the two DNS settings, or the first field of a line of
      the main table that is not "default". */
  lemma DesiredIff(f: AddrFormat, inp: Inputs, x: string)
    requires Faithful(f) && Resolves(f, inp)
    ensures x in Desired(f, inp) <==>
              || (inp.server.Some? && CanonicalPrefix(f, inp.server.value) == Some(x))
              || (exists a :: a in Answers(f, inp) && a.bits == f.bits && x == PrefixText(f, Prefix(a.addr, f.bits)))
              || Names(f, inp.dnsList, x) || Names(f, inp.dnsServers, x) || RoutesTo(f, inp.mainRoutes, x)
  {
    DesiredIffOffered(f, inp, x);
    OfferedBySome(f, inp, x);
    ServerOffers(f, inp, x);
    DnsListOffers(f, inp, x);
    DnsServersOffer(f, inp, x);
    MainTableOffers(f, inp, x);
  }

  // ---- in which order -----------------------------------------------------------

  /** Some place that stands for x comes before every place that stands for y. */
  ghost predicate OfferedBefore(f: AddrFormat, inp: Inputs, x: string, y: string) {
    exists s, k: nat :: Offered(f, inp, s, k) == Some(x) && LeadsAll(f, inp, s, k, y)
  }

  ghost predicate LeadsAll(f: AddrFormat, inp: Inputs, s: Source, k: nat, y: string) {
    forall t, m: nat :: Offered(f, inp, t, m) == Some(y) ==> Before(s, k, t, m)
  }

  lemma PlaceLeads(f: AddrFormat, inp: Inputs, s: Source, k: nat, y: string)
    requires Faithful(f) && Resolves(f, inp) && k < |Lists(f, inp)[Rank(s)]|
    requires forall m :: 0 <= m < |Joined(Lists(f, inp))| && Stands(f)(Joined(Lists(f, inp))[m]) == Some(y)
                         ==> Start(Lists(f, inp), s) + k < m
    ensures LeadsAll(f, inp, s, k, y)
  {
    forall t, m: nat | Offered(f, inp, t, m) == Some(y) ensures Before(s, k, t, m) {
      OfferedAt(f, inp, t, m);
      AtPlace(Lists(f, inp), t, m);
      PlacesInOrder(Lists(f, inp), s, k, t, m);
    }
  }

  lemma PrecedesIsBefore(f: AddrFormat, inp: Inputs, x: string, y: string)
    requires Faithful(f) && Resolves(f, inp) && Precedes(Stands(f), Joined(Lists(f, inp)), x, y)
    ensures OfferedBefore(f, inp, x, y)
  {
    var lists := Lists(f, inp);
    var i :| 0 <= i < |Joined(lists)| && Stands(f)(Joined(lists)[i]) == Some(x)
             && forall m :: 0 <= m < |Joined(lists)| && Stands(f)(Joined(lists)[m]) == Some(y) ==> i < m;
    var s, k := PlaceOf(lists, i);
    OfferedAt(f, inp, s, k);
    PlaceLeads(f, inp, s, k, y);
  }

  /** Entries stand in the order in which the sources first offer them: the server before
      the DNS list, that before the DNS servers, those before the main table, and within a
      source the earlier before the later. */
  lemma DesiredInOrder(f: AddrFormat, inp: Inputs, i: nat, j: nat)
    requires Faithful(f) && Resolves(f, inp) && i < j < |Desired(f, inp)|
    ensures OfferedBefore(f, inp, Desired(f, inp)[i], Desired(f, inp)[j])
  {
    DesiredByPlace(f, inp);
    ListedInOrder(f, Joined(Lists(f, inp)));
    PrecedesIsBefore(f, inp, Desired(f, inp)[i], Desired(f, inp)[j]);
  }

  // ---- the server ---------------------------------------------------------------

  /** The prefixes of the server. */
  ghost function OfServer(f: AddrFormat, inp: Inputs): set<string> {
    set x | x in Desired(f, inp) && exists k: nat :: Offered(f, inp, Server, k) == Some(x)
  }

  lemma ServerListed(f: AddrFormat, inp: Inputs, x: string)
    requires Faithful(f) && Resolves(f, inp)
    ensures x in AddTargets(f, [], ServerTexts(f, inp)) <==> exists k: nat :: Offered(f, inp, Server, k) == Some(x)
  {
    AddTargetsMember(f, [], ServerTexts(f, inp), x);
    forall k: nat { OfferedByServer(f, inp, k); }
    NamedAt(f, ServerTexts(f, inp), x);
  }

  lemma NamedAt(f: AddrFormat, raws: seq<string>, x: string)
    ensures Names(f, raws, x) <==> exists k :: 0 <= k < |raws| && CanonicalPrefix(f, raws[k]) == Some(x)
  {
  }

  lemma {:induction false} DistinctSize(list: seq<string>)
    requires Distinct(list)
    ensures |SetOf(list)| == |list|
  {
    if list == [] {
      assert SetOf(list) == {};
    } else {
      DistinctSize(list[1..]);
      assert list == [list[0]] + list[1..];
      assert SetOf(list) == {list[0]} + SetOf(list[1..]);
      assert list[0] !in list[1..];
    }
  }

  /** The server's prefixes are the front of the list. */
  lemma ServerLeads(f: AddrFormat, inp: Inputs)
    requires Faithful(f) && Resolves(f, inp)
    ensures var n := |OfServer(f, inp)|; n <= |Desired(f, inp)| && SetOf(Desired(f, inp)[..n]) == OfServer(f, inp)
  {
    var front := AddTargets(f, [], ServerTexts(f, inp));
    DesiredByPlace(f, inp);
    AddTargetsIsBypassList(f, [], ServerTexts(f, inp));
    assert Desired(f, inp)[..|front|] == front;
    forall x ensures x in SetOf(front) <==> x in OfServer(f, inp) {
      ServerListed(f, inp, x);
      if x in front { assert x in Desired(f, inp); }
    }
    DistinctSize(front);
    assert SetOf(front) == OfServer(f, inp);
  }

  /** The server's literal holds the address, or its name resolves to it. */
  ghost predicate ServerHas(f: AddrFormat, inp: Inputs, addr: nat) {
    || (inp.server.Some? && ParseBypassPrefix(f, inp.server.value).Some?
        && ParseBypassPrefix(f, inp.server.value).value.len <= f.bits
        && InPrefix(f, ParseBypassPrefix(f, inp.server.value).value, addr))
    || Resolved(f.bits, addr) in Answers(f, inp)
  }

  lemma HoldsOf(f: AddrFormat, p: Prefix, pkt: Packet)
    requires Faithful(f) && ValidPrefix(f, p) && InPrefix(f, p, pkt.dst)
    ensures HoldsDestination(f, pkt)(PrefixText(f, p))
  {
    ParsePrefixText(f, p);
  }

  lemma ServerPrefixHolds(f: AddrFormat, inp: Inputs, pkt: Packet) returns (k: nat, x: string)
    requires Faithful(f) && Resolves(f, inp) && ServerHas(f, inp, pkt.dst)
    ensures Offered(f, inp, Server, k) == Some(x) && HoldsDestination(f, pkt)(x)
  {
    if inp.server.Some? && CanonicalPrefix(f, inp.server.value).Some? {
      var p := ParseBypassPrefix(f, inp.server.value).value;
      k, x := 0, PrefixText(f, p);
      ParsedPrefixIsValid(f, inp.server.value);
      HoldsOf(f, p, pkt);
    } else {
      k :| 0 <= k < |Answers(f, inp)| && Answers(f, inp)[k] == Resolved(f.bits, pkt.dst);
      x := PrefixText(f, Prefix(pkt.dst, f.bits));
      HoldsOf(f, Prefix(pkt.dst, f.bits), pkt);
    }
  }

  lemma ServerInFront(f: AddrFormat, inp: Inputs, k: nat, x: string)
    requires Faithful(f) && Resolves(f, inp) && Offered(f, inp, Server, k) == Some(x)
    ensures |OfServer(f, inp)| <= |Desired(f, inp)| && x in Desired(f, inp)[..|OfServer(f, inp)|]
  {
    assert IsOffered(f, inp, x);
    DesiredIffOffered(f, inp, x);
    ServerLeads(f, inp);
    assert x in OfServer(f, inp);
  }

  lemma HeldInFront(holds: string -> bool, list: seq<string>, n: nat, x: string)
    requires n <= |list| && n <= 998 && x in list[..n] && holds(x)
    ensures exists i :: 0 <= i < Min(|list|, 998) && holds(list[i])
  {
    var i :| 0 <= i < n && list[..n][i] == x;
    assert holds(list[i]);
  }

  /** With at most 998 prefixes of its own, the server is bypassed whatever else is listed
      and truncated. */
  lemma ServerIsBypassed(f: AddrFormat, inp: Inputs, pkt: Packet)
    requires Faithful(f) && Resolves(f, inp) && |OfServer(f, inp)| <= 998 && ServerHas(f, inp, pkt.dst)
    ensures Bypassed(f, Desired(f, inp), pkt)
  {
    var k, x := ServerPrefixHolds(f, inp, pkt);
    ServerInFront(f, inp, k, x);
    HeldInFront(HoldsDestination(f, pkt), Desired(f, inp), |OfServer(f, inp)|, x);
  }
}
