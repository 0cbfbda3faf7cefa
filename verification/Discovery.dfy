// Discovery of UPnP devices by SSDP (upnp/discovery.go:89-158): a loop over whatever
// the local network sends, and the filter over the whole reply sequence it equals.

module Discovery {
  import opened Text

  datatype Location = Location(ip: string, url: string)

  datatype Datagram = Datagram(ip: string, data: string)

  // One turn of the loop: the context is over, or the read ends so.
  datatype Event = ContextDone | TimedOut | ReadFailed | Received(datagram: Datagram)

  const MAX_REPLIES: nat := 256
  const MAX_LOCATIONS: nat := 64
  const MAX_SOURCES: nat := 16
  const FIRST_BUFFER: nat := 4096
  const MAX_DATAGRAM: nat := 65507

  function Min(a: nat, b: nat): nat {
    if a < b then a else b
  }

  function Take<T>(s: seq<T>, n: nat): (r: seq<T>)
    ensures r <= s && |r| <= n
  {
    if |s| <= n then s else s[..n]
  }

  // ---- The filter ----

  // The buffer that awaits the next reply after these.
  function Buffer(ds: seq<Datagram>): (size: nat)
    ensures size in {4096, 8192, 16384, 32768, 65507}
  {
    if ds == [] then FIRST_BUFFER
    else
      var size := Buffer(ds[..|ds| - 1]);
      if Truncated(ds[|ds| - 1], size) then Min(size * 2, MAX_DATAGRAM) else size
  }

  // A reply that fills a buffer which can still grow may have lost its end.
  predicate Truncated(d: Datagram, buffer: nat) {
    |d.data| >= buffer && buffer < MAX_DATAGRAM
  }

  // The replies that were not truncated, as much of them as the buffer took.
  function Kept(ds: seq<Datagram>): seq<Datagram> {
    if ds == [] then []
    else
      var init, d := ds[..|ds| - 1], ds[|ds| - 1];
      Kept(init) + if Truncated(d, Buffer(init)) then [] else [d.(data := Take(d.data, Buffer(init)))]
  }

  // The elements of s, each where it first occurs.
  function Distinct<T(==, !new)>(s: seq<T>): (r: seq<T>)
    ensures forall x :: x in r <==> x in s
  {
    if s == [] then []
    else
      var init, x := s[..|s| - 1], s[|s| - 1];
      assert s == init + [x];
      if x in init then Distinct(init) else Distinct(init) + [x]
  }

  function Sources(kept: seq<Datagram>): seq<string> {
    if kept == [] then []
    else Sources(kept[..|kept| - 1]) + if kept[|kept| - 1].ip == "" then [] else [kept[|kept| - 1].ip]
  }

  // The sources that are listened to: the first sixteen.
  function Listened(kept: seq<Datagram>): seq<string> {
    Take(Distinct(Sources(kept)), MAX_SOURCES)
  }

  // The locations announced by replies of these sources, or of no known source.
  function Announced(parse: (string, string) -> Option<string>, kept: seq<Datagram>, sources: seq<string>): seq<Location> {
    if kept == [] then []
    else
      var d := kept[|kept| - 1];
      var url := parse(d.data, d.ip);
      Announced(parse, kept[..|kept| - 1], sources)
      + if (d.ip == "" || d.ip in sources) && url.Some? then [Location(d.ip, url.value)] else []
  }

  // What the whole sequence of replies amounts to.
  function Locations(parse: (string, string) -> Option<string>, ds: seq<Datagram>): seq<Location> {
    Distinct(Announced(parse, Kept(ds), Listened(Kept(ds))))
  }

  // A reply is kept as it was sent if and only if it is shorter than the buffer, or the
  // buffer cannot grow and takes it whole; it is dropped if it fills a buffer that can.
  lemma KeptWhole(ds: seq<Datagram>, d: Datagram)
    ensures |d.data| < Buffer(ds) || Buffer(ds) == 65507 <==> |Kept(ds + [d])| > |Kept(ds)|
    ensures |d.data| < Buffer(ds) || (Buffer(ds) == 65507 && |d.data| <= 65507) ==> Kept(ds + [d]) == Kept(ds) + [d]
  {
    assert (ds + [d])[..|ds|] == ds;
    assert d.(data := d.data) == d;
  }

  // The buffer has grown once for every reply dropped, and four times at most.
  lemma {:induction false} BufferGrows(ds: seq<Datagram>)
    ensures |Kept(ds)| <= |ds| <= |Kept(ds)| + 4
    ensures Buffer(ds) == [4096, 8192, 16384, 32768, 65507][|ds| - |Kept(ds)|]
  {
    if ds != [] {
      BufferGrows(ds[..|ds| - 1]);
    }
  }

  // ---- Properties of the filter ----

  lemma {:induction false} DistinctIsDistinct<T(!new)>(s: seq<T>)
    ensures forall i, j :: 0 <= i < j < |Distinct(s)| ==> Distinct(s)[i] != Distinct(s)[j]
  {
    if s != [] {
      DistinctIsDistinct(s[..|s| - 1]);
    }
  }

  lemma TakeGrows<T>(s: seq<T>, t: seq<T>, n: nat)
    requires s <= t
    ensures Take(s, n) <= Take(t, n) && (|s| >= n ==> Take(s, n) == Take(t, n))
  {
  }

  // One more reply adds its source to those listened to, unless there are sixteen.
  lemma ListenedStep(kept: seq<Datagram>, d: Datagram)
    ensures var l, l' := Listened(kept), Listened(kept + [d]);
            l' == if d.ip != "" && d.ip !in l && |l| < 16 then l + [d.ip] else l
  {
    assert (kept + [d])[..|kept|] == kept;
    var s, t := Sources(kept), Sources(kept + [d]);
    if d.ip == "" {
      assert t == s;
    } else {
      assert t == s + [d.ip] && t[..|t| - 1] == s;
      TakeGrows(Distinct(s), Distinct(t), MAX_SOURCES);
    }
  }

  lemma {:induction false} AnnouncedBySame(parse: (string, string) -> Option<string>, kept: seq<Datagram>, s: seq<string>, t: seq<string>)
    requires forall ip :: ip in Sources(kept) ==> (ip in s <==> ip in t)
    ensures Announced(parse, kept, s) == Announced(parse, kept, t)
  {
    if kept != [] {
      AnnouncedBySame(parse, kept[..|kept| - 1], s, t);
    }
  }

  // Whether a source heard before is listened to is settled.
  lemma ListenedIsSettled(kept: seq<Datagram>, d: Datagram, ip: string)
    requires ip in Sources(kept)
    ensures ip in Listened(kept + [d]) <==> ip in Listened(kept)
  {
    ListenedStep(kept, d);
    if |Listened(kept)| < MAX_SOURCES {
      assert ip in Distinct(Sources(kept)) && Listened(kept) == Distinct(Sources(kept));
    }
  }

  // The filter, one reply at a time.
  lemma LocationsStep(parse: (string, string) -> Option<string>, ds: seq<Datagram>, d: Datagram)
    ensures var n := Buffer(ds);
            var d' := d.(data := Take(d.data, n));
            var url := parse(d'.data, d.ip);
            var listened := Listened(Kept(ds));
            && Buffer(ds + [d]) == (if Truncated(d, n) then Min(n * 2, MAX_DATAGRAM) else n)
            && Kept(ds + [d]) == Kept(ds) + (if Truncated(d, n) then [] else [d'])
            && Locations(parse, ds + [d])
               == if !Truncated(d, n) && (d.ip == "" || d.ip in listened || |listened| < 16)
                     && url.Some? && Location(d.ip, url.value) !in Locations(parse, ds)
                  then Locations(parse, ds) + [Location(d.ip, url.value)]
                  else Locations(parse, ds)
  {
    assert (ds + [d])[..|ds|] == ds;
    var kept, n := Kept(ds), Buffer(ds);
    if Truncated(d, n) {
      assert kept + [] == kept;
    } else {
      var d' := d.(data := Take(d.data, n));
      AnnouncedStep(parse, kept, d');
    }
  }

  lemma AnnouncedStep(parse: (string, string) -> Option<string>, kept: seq<Datagram>, d: Datagram)
    ensures var url := parse(d.data, d.ip);
            var listened := Listened(kept);
            var before := Distinct(Announced(parse, kept, listened));
            Distinct(Announced(parse, kept + [d], Listened(kept + [d])))
            == if (d.ip == "" || d.ip in listened || |listened| < MAX_SOURCES)
                  && url.Some? && Location(d.ip, url.value) !in before
               then before + [Location(d.ip, url.value)] else before
  {
    var l, l', url := Listened(kept), Listened(kept + [d]), parse(d.data, d.ip);
    ListenedStep(kept, d);
    forall ip | ip in Sources(kept) ensures ip in l <==> ip in l' {
      ListenedIsSettled(kept, d, ip);
    }
    AnnouncedBySame(parse, kept, l, l');
    assert (kept + [d])[..|kept|] == kept;
    var a := Announced(parse, kept, l);
    if (d.ip == "" || d.ip in l') && url.Some? {
      assert (a + [Location(d.ip, url.value)])[..|a|] == a;
    } else {
      assert a + [] == a;
    }
  }

  // ---- The stream ----

  // The replies before the first interruption, at most n of them.
  function Replies(stream: nat -> Event, n: nat): (ds: seq<Datagram>)
    ensures |ds| <= n
    ensures forall i :: 0 <= i < |ds| ==> stream(i) == Received(ds[i])
    ensures |ds| < n ==> !stream(|ds|).Received?
  {
    if n == 0 then []
    else
      var before := Replies(stream, n - 1);
      if |before| == n - 1 && stream(n - 1).Received? then before + [stream(n - 1).datagram] else before
  }

  lemma WithLast<T>(s: seq<T>, i: nat)
    requires i < |s|
    ensures s[..|s| - 1][..i] == s[..i] && s == s[..|s| - 1] + [s[|s| - 1]]
  {
  }

  lemma {:induction false} LocationsGrow(parse: (string, string) -> Option<string>, ds: seq<Datagram>, i: nat)
    requires i <= |ds|
    ensures Locations(parse, ds[..i]) <= Locations(parse, ds)
  {
    if i < |ds| {
      var init := ds[..|ds| - 1];
      LocationsGrow(parse, init, i);
      WithLast(ds, i);
      LocationsStep(parse, init, ds[|ds| - 1]);
    } else {
      assert ds[..i] == ds;
    }
  }

  lemma RepliesNext(stream: nat -> Event, n: nat, ds: seq<Datagram>)
    requires ds == Replies(stream, n) && |ds| == n && stream(n).Received?
    ensures Replies(stream, n + 1) == ds + [stream(n).datagram]
  {
  }

  lemma {:induction false} RepliesGrow(stream: nat -> Event, m: nat, n: nat)
    requires m <= n
    ensures Replies(stream, m) <= Replies(stream, n)
    ensures |Replies(stream, m)| < m ==> Replies(stream, n) == Replies(stream, m)
    ensures |Replies(stream, m)| == m && !stream(m).Received? ==> Replies(stream, n) == Replies(stream, m)
  {
    if m < n {
      RepliesGrow(stream, m, n - 1);
    }
  }

  // The set of sources the program keeps, against the list of sources listened to.
  ghost predicate Hears(sources: set<string>, listened: seq<string>) {
    |sources| == |listened| && forall ip :: ip in sources <==> ip in listened
  }

  // What the loop has after the replies ds: the filter's locations, the sources listened
  // to and the buffer.
  ghost predicate Reached(parse: (string, string) -> Option<string>, ds: seq<Datagram>, locations: seq<Location>,
                          sources: set<string>, buffer: nat)
  {
    locations == Locations(parse, ds) && Hears(sources, Listened(Kept(ds))) && buffer == Buffer(ds)
  }

  lemma TruncatedStep(parse: (string, string) -> Option<string>, ds: seq<Datagram>, d: Datagram, locations: seq<Location>,
                      sources: set<string>, buffer: nat)
    requires Reached(parse, ds, locations, sources, buffer) && Truncated(d, buffer)
    ensures Reached(parse, ds + [d], locations, sources, Min(buffer * 2, MAX_DATAGRAM))
  {
    LocationsStep(parse, ds, d);
    assert Kept(ds) + [] == Kept(ds);
  }

  predicate Admitted(d: Datagram, sources: set<string>) {
    d.ip == "" || d.ip in sources || |sources| < MAX_SOURCES
  }

  lemma RefusedStep(parse: (string, string) -> Option<string>, ds: seq<Datagram>, d: Datagram, locations: seq<Location>,
                    sources: set<string>, buffer: nat)
    requires Reached(parse, ds, locations, sources, buffer) && !Truncated(d, buffer) && !Admitted(d, sources)
    ensures Reached(parse, ds + [d], locations, sources, buffer)
  {
    LocationsStep(parse, ds, d);
    ListenedStep(Kept(ds), d.(data := Take(d.data, buffer)));
  }

  lemma AdmittedStep(parse: (string, string) -> Option<string>, ds: seq<Datagram>, d: Datagram, locations: seq<Location>,
                     sources: set<string>, buffer: nat)
    requires Reached(parse, ds, locations, sources, buffer) && !Truncated(d, buffer) && Admitted(d, sources)
    ensures var url := parse(Take(d.data, buffer), d.ip);
            Reached(parse, ds + [d],
                    if url.Some? && Location(d.ip, url.value) !in locations then locations + [Location(d.ip, url.value)] else locations,
                    if d.ip == "" then sources else sources + {d.ip}, buffer)
  {
    LocationsStep(parse, ds, d);
    ListenedStep(Kept(ds), d.(data := Take(d.data, buffer)));
    HearsMore(sources, Listened(Kept(ds)), d.ip);
  }

  lemma HearsMore(sources: set<string>, listened: seq<string>, ip: string)
    requires Hears(sources, listened)
    ensures Hears(sources + {ip}, if ip in listened then listened else listened + [ip])
  {
    if ip in listened {
      assert sources + {ip} == sources;
    }
  }

  // The read that fails is reached, because the loop still wants more.
  predicate Fails(stream: nat -> Event, parse: (string, string) -> Option<string>) {
    var ds := Replies(stream, MAX_REPLIES);
    |ds| < MAX_REPLIES && stream(|ds|).ReadFailed? && |Locations(parse, ds)| < MAX_LOCATIONS
  }

  // Once the loop has enough, or is interrupted, the rest of the stream changes nothing.
  lemma Settled(stream: nat -> Event, parse: (string, string) -> Option<string>, n: nat, ds: seq<Datagram>)
    requires n <= MAX_REPLIES && ds == Replies(stream, n) && |ds| == n && |Locations(parse, ds)| <= MAX_LOCATIONS
    requires n == MAX_REPLIES || |Locations(parse, ds)| == MAX_LOCATIONS || !stream(n).Received?
    ensures Take(Locations(parse, Replies(stream, MAX_REPLIES)), MAX_LOCATIONS) == Locations(parse, ds)
    ensures Fails(stream, parse) <==>
              n < MAX_REPLIES && |Locations(parse, ds)| < MAX_LOCATIONS && stream(n).ReadFailed?
  {
    RepliesGrow(stream, n, MAX_REPLIES);
    var all := Replies(stream, MAX_REPLIES);
    assert all[..n] == ds;
    LocationsGrow(parse, all, n);
  }

  ghost predicate SameElements(seen: set<Location>, locations: seq<Location>) {
    forall l :: l in seen <==> l in locations
  }

  // What one reply does to the locations found, the sources heard and the buffer.
  method TakeReply(d: Datagram, parse: (string, string) -> Option<string>, ghost ds: seq<Datagram>,
                   locations: seq<Location>, seen: set<Location>, sources: set<string>, buffer: nat)
    returns (locations': seq<Location>, seen': set<Location>, sources': set<string>, buffer': nat)
    requires Reached(parse, ds, locations, sources, buffer) && SameElements(seen, locations)
    ensures Reached(parse, ds + [d], locations', sources', buffer') && SameElements(seen', locations')
    ensures |locations'| <= |locations| + 1
  {
    locations', seen', sources', buffer' := locations, seen, sources, buffer;
    if |d.data| >= buffer && buffer < MAX_DATAGRAM {
      TruncatedStep(parse, ds, d, locations, sources, buffer);
      buffer' := if buffer * 2 > MAX_DATAGRAM then MAX_DATAGRAM else buffer * 2;
      return;
    }
    if d.ip != "" && d.ip !in sources && |sources| >= MAX_SOURCES {
      RefusedStep(parse, ds, d, locations, sources, buffer);
      return;
    }
    AdmittedStep(parse, ds, d, locations, sources, buffer);
    if d.ip != "" {
      sources' := sources + {d.ip};
    }
    var url := parse(Take(d.data, buffer), d.ip);
    if url.None? || Location(d.ip, url.value) in seen {
      return;
    }
    seen' := seen + {Location(d.ip, url.value)};
    locations' := locations + [Location(d.ip, url.value)];
  }

  // The first 64 locations that the filter finds in the first 256 replies.
  method DiscoverLocations(stream: nat -> Event, parse: (string, string) -> Option<string>)
    returns (locations: seq<Location>, failed: bool)
    ensures failed == Fails(stream, parse)
    ensures locations == if failed then [] else Take(Locations(parse, Replies(stream, 256)), 64)
  {
    var seen: set<Location>, sources: set<string>, buffer: nat, replies: nat := {}, {}, FIRST_BUFFER, 0;
    locations, failed := [], false;
    ghost var ds: seq<Datagram> := [];
    while replies < MAX_REPLIES && |locations| < MAX_LOCATIONS && !stream(replies).ContextDone?
      invariant replies <= MAX_REPLIES && |locations| <= MAX_LOCATIONS
      invariant ds == Replies(stream, replies) && |ds| == replies
      invariant Reached(parse, ds, locations, sources, buffer) && SameElements(seen, locations)
      decreases MAX_REPLIES - replies
    {
      var event := stream(replies);
      if event.TimedOut? {
        break;
      }
      if event.ReadFailed? {
        Settled(stream, parse, replies, ds);
        return [], true;
      }
      RepliesNext(stream, replies, ds);
      locations, seen, sources, buffer := TakeReply(event.datagram, parse, ds, locations, seen, sources, buffer);
      ds, replies := ds + [event.datagram], replies + 1;
    }
    Settled(stream, parse, replies, ds);
  }
}
