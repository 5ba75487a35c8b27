/** Peers found by multicast, and the upstreams they bring along. Whichever peers
    share addresses, change them or expire, what is tracked is a plain set. */
module Discovery {
  import opened Health

  /** The upstream URLs of a peer's addresses, and when it was last seen. */
  datatype Peer = Peer(urls: seq<Url>, seen: nat)

  type Names = map<string, Peer>

  function SetOf(urls: seq<Url>): set<Url> { set url | url in urls }

  function Advertised(byName: Names): set<Url> {
    set name, url | name in byName && url in byName[name].urls :: url
  }

  function UrlsOf(byName: Names, name: string): seq<Url> { if name in byName then byName[name].urls else [] }

  lemma AdvertisedWithout(byName: Names, name: string)
    ensures Advertised(byName) == Advertised(byName - {name}) + SetOf(UrlsOf(byName, name))
  {
    var rest := byName - {name};
    forall url ensures url in Advertised(byName) <==> url in Advertised(rest) || url in SetOf(UrlsOf(byName, name)) {
      if n :| n in byName && url in byName[n].urls && n != name {
        assert n in rest && url in rest[n].urls;
      }
      if n :| n in rest && url in rest[n].urls {
        assert n in byName && url in byName[n].urls;
      }
    }
  }

  lemma SetOfBoth(a: seq<Url>, b: seq<Url>)
    ensures SetOf(a + b) == SetOf(a) + SetOf(b)
  {
  }

  lemma SetOfSnoc(urls: seq<Url>, i: nat)
    requires i < |urls|
    ensures SetOf(urls[..i + 1]) == SetOf(urls[..i]) + {urls[i]}
  {
    assert urls[..i + 1] == urls[..i] + [urls[i]];
  }

  lemma AdvertisedWith(byName: Names, name: string, peer: Peer)
    requires name !in byName
    ensures Advertised(byName[name := peer]) == Advertised(byName) + SetOf(peer.urls)
  {
    AdvertisedWithout(byName[name := peer], name);
    assert byName[name := peer] - {name} == byName;
  }

  // ---- What the names amount to

  datatype Event =
    | Resolved(name: string, urls: seq<Url>, now: nat)   // the peer's usable addresses
    | Cleanup(now: nat)
    | Other

  function Expired(peer: Peer, now: nat, expiration: nat): bool { now > peer.seen && now - peer.seen > expiration }

  function NextNames(byName: Names, e: Event, expiration: nat): Names {
    match e
    case Resolved(name, urls, now) => if urls == [] then byName else byName[name := Peer(urls, now)]
    case Cleanup(now) => map name | name in byName && !Expired(byName[name], now, expiration) :: byName[name]
    case Other => byName
  }

  function RunNames(events: seq<Event>, expiration: nat): Names
    decreases |events|
  {
    if events == [] then map[]
    else NextNames(RunNames(events[..|events| - 1], expiration), events[|events| - 1], expiration)
  }

  /** Event `i` is the last word on `name`, and no cleanup since found it too old. */
  ghost predicate LastSeenAt(events: seq<Event>, expiration: nat, name: string, i: nat) {
    && i < |events| && events[i].Resolved? && events[i].name == name && events[i].urls != []
    && forall j | i < j < |events| ::
         && !(events[j].Resolved? && events[j].name == name && events[j].urls != [])
         && (events[j].Cleanup? ==> events[j].now <= events[i].now + expiration)
  }

  /** The names are exactly the peers seen recently, with their latest addresses. */
  lemma {:induction false} NamesAreTheLive(events: seq<Event>, expiration: nat, name: string)
    ensures name in RunNames(events, expiration) <==> exists i: nat :: LastSeenAt(events, expiration, name, i)
    ensures forall i: nat | LastSeenAt(events, expiration, name, i) ::
              name in RunNames(events, expiration)
              && RunNames(events, expiration)[name] == Peer(events[i].urls, events[i].now)
    decreases |events|
  {
    if events != [] {
      var last := |events| - 1;
      var earlier, e := events[..last], events[last];
      NamesAreTheLive(earlier, expiration, name);
      if e.Resolved? && e.name == name && e.urls != [] {
        assert LastSeenAt(events, expiration, name, last);
      } else {
        forall i: nat | LastSeenAt(events, expiration, name, i)
          ensures LastSeenAt(earlier, expiration, name, i)
        {
        }
        forall i: nat | LastSeenAt(earlier, expiration, name, i)
                        && (e.Cleanup? ==> e.now <= events[i].now + expiration)
          ensures LastSeenAt(events, expiration, name, i)
        {
        }
      }
    }
  }

  /** The URLs of `previous` that are not in `urls`. */
  function Dropped(previous: seq<Url>, urls: seq<Url>): (dropped: seq<Url>)
    ensures forall url :: url in dropped <==> url in previous && url !in urls
  {
    if previous == [] then []
    else if previous[0] in urls then Dropped(previous[1..], urls)
    else [previous[0]] + Dropped(previous[1..], urls)
  }

  lemma Handover(byName: Names, name: string, peer: Peer, previous: seq<Url>)
    requires name !in byName
    ensures Advertised(byName) + (SetOf(previous) + SetOf(peer.urls))
         == Advertised(byName[name := peer]) + SetOf(Dropped(previous, peer.urls))
  {
    AdvertisedWith(byName, name, peer);
    assert SetOf(peer.urls) + SetOf(Dropped(previous, peer.urls)) == SetOf(previous) + SetOf(peer.urls);
  }

  // ---- The peers and the prober, changed in place

  class Peers {
    var byName: Names
    var owned: set<Url>

    constructor ()
      ensures byName == map[] && owned == {}
    {
      byName, owned := map[], {};
    }

    /** Tracked are the configured and the advertised upstreams, and owned those of
        them that are not configured; `leaving` are advertised no more, but not yet
        released. */
    ghost predicate Tracks(prober: Prober, configured: set<Url>, leaving: set<Url>)
      reads this, prober
    {
      && prober.table.Keys == configured + Advertised(byName) + leaving
      && owned == (Advertised(byName) + leaving) - configured
    }

    /** Stops tracking `url` unless a peer advertises it or it is not ours. */
    method Release(prober: Prober, url: Url, ghost configured: set<Url>, ghost leaving: set<Url>)
      requires Tracks(prober, configured, leaving)
      modifies this`owned, prober
      ensures Tracks(prober, configured, leaving - {url})
      ensures prober.table == old(prober.table) - ({url} - configured - Advertised(byName))
    {
      var advertised := exists name <- byName :: url in byName[name].urls;
      assert advertised <==> url in Advertised(byName);
      if advertised || url !in owned {
        assert url in prober.table ==> url in configured + Advertised(byName);
        return;
      }
      owned := owned - {url};
      prober.RemoveUpstream(url);
      assert {url} - configured - Advertised(byName) == {url};
    }

    method ReleaseAll(prober: Prober, urls: seq<Url>, ghost configured: set<Url>)
      requires Tracks(prober, configured, SetOf(urls))
      modifies this`owned, prober
      ensures Tracks(prober, configured, {})
      ensures forall url <- prober.table :: url in old(prober.table) && prober.table[url] == old(prober.table)[url]
    {
      for i := 0 to |urls|
        invariant Tracks(prober, configured, SetOf(urls) - SetOf(urls[..i]))
        invariant forall url <- prober.table ::
                    url in old(prober.table) && prober.table[url] == old(prober.table)[url]
      {
        SetOfSnoc(urls, i);
        assert SetOf(urls) - SetOf(urls[..i + 1]) == SetOf(urls) - SetOf(urls[..i]) - {urls[i]};
        Release(prober, urls[i], configured, SetOf(urls) - SetOf(urls[..i]));
      }
      assert urls[..|urls|] == urls;
      assert SetOf(urls) - SetOf(urls) == {};
    }

    /** Starts tracking those of the URLs that are new to their peer. */
    method AddNew(prober: Prober, previous: seq<Url>, urls: seq<Url>, priority: int, ghost configured: set<Url>)
      requires Tracks(prober, configured, SetOf(previous))
      modifies this`owned, prober
      ensures Tracks(prober, configured, SetOf(previous) + SetOf(urls))
      ensures forall url <- prober.table :: prober.table[url]
                == if url in old(prober.table) then old(prober.table)[url] else NewHealth(url, priority)
    {
      assert SetOf(previous) + SetOf([]) == SetOf(previous);
      for i := 0 to |urls|
        invariant Tracks(prober, configured, SetOf(previous) + SetOf(urls[..i]))
        invariant forall url <- prober.table :: prober.table[url]
                    == if url in old(prober.table) then old(prober.table)[url] else NewHealth(url, priority)
      {
        var url := urls[i];
        SetOfSnoc(urls, i);
        if url !in previous {
          var added := prober.AddUpstream(url, priority);
          if added {
            owned := owned + {url};
          }
        }
      }
      assert urls[..|urls|] == urls;
    }

    /** A peer announces itself, for the first time or with new addresses. Upstreams
        that stay keep their health records. */
    method Resolve(prober: Prober, name: string, urls: seq<Url>, priority: int, now: nat, ghost configured: set<Url>)
      requires Tracks(prober, configured, {})
      modifies this, prober
      ensures byName == old(byName)[name := Peer(urls, now)]
      ensures Tracks(prober, configured, {})
      ensures forall url <- prober.table :: prober.table[url]
                == if url in old(prober.table) then old(prober.table)[url] else NewHealth(url, priority)
    {
      var previous := UrlsOf(byName, name);
      AdvertisedWithout(byName, name);
      assert byName[name := Peer(urls, now)] == (byName - {name})[name := Peer(urls, now)];
      byName := byName - {name};
      AddNew(prober, previous, urls, priority, configured);

      var dropped := Dropped(previous, urls);
      Handover(byName, name, Peer(urls, now), previous);
      byName := byName[name := Peer(urls, now)];
      assert Tracks(prober, configured, SetOf(dropped));
      ReleaseAll(prober, dropped, configured);
    }

    method ExtractStale(expiration: nat, now: nat) returns (stale: seq<Url>)
      modifies this`byName
      ensures byName == NextNames(old(byName), Cleanup(now), expiration)
      ensures Advertised(old(byName)) == Advertised(byName) + SetOf(stale)
    {
      stale := [];
      var names := byName.Keys;
      while names != {}
        invariant names <= byName.Keys <= old(byName).Keys
        invariant forall name <- byName :: byName[name] == old(byName)[name]
        invariant forall name <- old(byName) ::
                    name in byName <==> name in names || !Expired(old(byName)[name], now, expiration)
        invariant Advertised(old(byName)) == Advertised(byName) + SetOf(stale)
        decreases |names|
      {
        var name :| name in names;
        names := names - {name};
        if Expired(byName[name], now, expiration) {
          var gone := byName[name].urls;
          AdvertisedWithout(byName, name);
          SetOfBoth(stale, gone);
          stale := stale + gone;
          byName := byName - {name};
        }
      }
    }

    /** Forgets the peers not seen for longer than `expiration`. */
    method Expire(prober: Prober, expiration: nat, now: nat, ghost configured: set<Url>)
      requires Tracks(prober, configured, {})
      modifies this, prober
      ensures byName == NextNames(old(byName), Cleanup(now), expiration)
      ensures Tracks(prober, configured, {})
      ensures forall url <- prober.table :: url in old(prober.table) && prober.table[url] == old(prober.table)[url]
    {
      var stale := ExtractStale(expiration, now);
      ReleaseAll(prober, stale, configured);
    }
  }

  /** Peers expire after three announcement periods, or half a minute if there are none. */
  function Expiration(discoveryTime: nat): nat { if discoveryTime == 0 then 30_000_000_000 else 3 * discoveryTime }

  /** Discovery from start to end. What the prober tracks is the configured upstreams
      and the addresses of the peers that are alive, at every point; those configured
      keep their health records. */
  method RunDiscovery(prober: Prober, events: seq<Event>, discoveryTime: nat, priority: int) returns (peers: Peers)
    modifies prober
    ensures prober.table.Keys == old(prober.table).Keys + Advertised(RunNames(events, Expiration(discoveryTime)))
    ensures peers.owned == Advertised(RunNames(events, Expiration(discoveryTime))) - old(prober.table).Keys
    ensures forall url <- old(prober.table) :: prober.table[url] == old(prober.table)[url]
  {
    peers := new Peers();
    var expiration := Expiration(discoveryTime);
    ghost var configured := prober.table.Keys;
    assert prober.table.Keys == configured + Advertised(peers.byName) + {};
    for i := 0 to |events|
      invariant fresh(peers)
      invariant peers.byName == RunNames(events[..i], expiration)
      invariant peers.Tracks(prober, configured, {})
      invariant forall url <- configured :: url in prober.table && prober.table[url] == old(prober.table)[url]
    {
      assert events[..i + 1][..i] == events[..i];
      match events[i] {
        case Resolved(name, urls, now) =>
          if urls == [] {
            continue;
          }
          peers.Resolve(prober, name, urls, priority, now, configured);
        case Cleanup(now) =>
          peers.Expire(prober, expiration, now, configured);
        case Other =>
      }
      assert configured <= prober.table.Keys;
    }
    assert events[..|events|] == events;
  }
}
