/** The popular-servers list: rows that expand on click and load the
    server's data, a cache of the loaded data, and per-row hover colours. */
module PopularServers {
  import opened Js

  /** A row of the list. */
  datatype PopularServer = PopularServer(id: int, server: string)

  /** What `/api/server/data` answered: the server name it echoes, and the rest. */
  datatype ServerData<D> = ServerData(server: string, details: D)

  /** A colour taken from a row's favicon. */
  datatype HoverColor = HoverColor(id: int, color: string)

  predicate NoDuplicates(ids: seq<int>) {
    forall i, j :: 0 <= i < j < |ids| ==> ids[i] != ids[j]
  }

  /** `ids.filter((i) => i !== id)`: every occurrence of `id` goes, the rest
      stays in order. */
  function Without(ids: seq<int>, id: int): (r: seq<int>)
    ensures forall x :: x in r <==> x in ids && x != id
    ensures |r| <= |ids|
  {
    if ids == [] then []
    else
      assert ids == [ids[0]] + ids[1..];
      (if ids[0] == id then [] else [ids[0]]) + Without(ids[1..], id)
  }

  lemma {:induction false} WithoutKeepsNoDuplicates(ids: seq<int>, id: int)
    requires NoDuplicates(ids)
    ensures NoDuplicates(Without(ids, id))
  {
    if ids != [] {
      WithoutKeepsNoDuplicates(ids[1..], id);
      var rest := Without(ids[1..], id);
      assert ids[0] !in ids[1..];
      assert ids[0] !in rest;
    }
  }

  lemma {:induction false} WithoutAbsent(ids: seq<int>, id: int)
    requires id !in ids
    ensures Without(ids, id) == ids
  {
    if ids != [] {
      WithoutAbsent(ids[1..], id);
      assert ids == [ids[0]] + ids[1..];
    }
  }

  /** What a click on row `id` does to the expanded rows while the fetcher
      is idle: collapse it if expanded, else expand it. */
  function Toggle(ids: seq<int>, id: int): (r: seq<int>)
    ensures id in r <==> id !in ids
    ensures forall x :: x != id ==> (x in r <==> x in ids)
    ensures id !in ids ==> r == ids + [id]
  {
    if id in ids then Without(ids, id) else ids + [id]
  }

  /** A click flips the membership of the clicked id and of no other id, and
      keeps the expanded rows free of duplicates. */
  lemma ToggleFlips(ids: seq<int>, id: int)
    requires NoDuplicates(ids)
    ensures forall x :: x in Toggle(ids, id) <==> (if x == id then id !in ids else x in ids)
    ensures NoDuplicates(Toggle(ids, id))
  {
    if id in ids {
      WithoutKeepsNoDuplicates(ids, id);
    }
  }

  /** Two clicks on the same row while idle restore the expanded set; when
      the row was collapsed they restore the list itself. */
  lemma ToggleTwice(ids: seq<int>, id: int)
    requires NoDuplicates(ids)
    ensures forall x :: x in Toggle(Toggle(ids, id), id) <==> x in ids
    ensures id !in ids ==> Toggle(Toggle(ids, id), id) == ids
  {
    ToggleFlips(ids, id);
    ToggleFlips(Toggle(ids, id), id);
    if id !in ids {
      assert id in ids + [id];
      WithoutAppended(ids, id);
    }
  }

  lemma {:induction false} WithoutAppended(ids: seq<int>, id: int)
    requires id !in ids
    ensures Without(ids + [id], id) == ids
  {
    if ids == [] {
      assert [id][1..] == [];
    } else {
      assert (ids + [id])[1..] == ids[1..] + [id];
      WithoutAppended(ids[1..], id);
      assert ids == [ids[0]] + ids[1..];
    }
  }

  /** The URL a click on a collapsed row loads. */
  function DataUrl(server: string): string {
    "/api/server/data?server=" + server
  }

  predicate UniqueByServer<D>(entries: seq<ServerData<D>>) {
    forall i, j :: 0 <= i < j < |entries| ==> entries[i].server != entries[j].server
  }

  predicate HasServer<D>(entries: seq<ServerData<D>>, name: string) {
    exists i :: 0 <= i < |entries| && entries[i].server == name
  }

  /** The effect run on new fetcher data: remember it unless data for the
      same server is already remembered. */
  function Remember<D>(entries: seq<ServerData<D>>, data: Option<ServerData<D>>): (r: seq<ServerData<D>>)
    ensures entries <= r && |r| <= |entries| + 1
    ensures data.Some? ==> HasServer(r, data.value.server)
    ensures |r| == |entries| + 1 ==> data.Some? && r[|entries|] == data.value && !HasServer(entries, data.value.server)
  {
    if data.Some? && !HasServer(entries, data.value.server) then
      var r := entries + [data.value];
      assert r[|entries|].server == data.value.server;
      r
    else entries
  }

  /** The cache only grows, by at most the new data, ends up holding data for
      every server that answered, and stays unique by server name. */
  lemma RememberAppendsOnce<D>(entries: seq<ServerData<D>>, data: Option<ServerData<D>>)
    requires UniqueByServer(entries)
    ensures var r := Remember(entries, data);
            && entries <= r && |r| <= |entries| + 1
            && (data.Some? ==> HasServer(r, data.value.server))
            && (data.None? || HasServer(entries, data.value.server) ==> r == entries)
            && UniqueByServer(r)
  {
    var r := Remember(entries, data);
    if data.Some? && !HasServer(entries, data.value.server) {
      assert r[|entries|].server == data.value.server;
    }
  }

  /** `serverData.find((i) => i.server === name)`: the first entry for `name`. */
  function DetailsFor<D>(entries: seq<ServerData<D>>, name: string): (r: Option<ServerData<D>>)
    ensures r.Some? <==> HasServer(entries, name)
    ensures r.Some? ==> exists i :: 0 <= i < |entries| && entries[i] == r.value && r.value.server == name
                                    && forall k :: 0 <= k < i ==> entries[k].server != name
  {
    if entries == [] then None
    else if entries[0].server == name then Some(entries[0])
    else
      var r := DetailsFor(entries[1..], name);
      assert forall i :: 1 <= i < |entries| ==> entries[i] == entries[1..][i - 1];
      assert HasServer(entries[1..], name) ==> HasServer(entries, name);
      assert HasServer(entries, name) ==> HasServer(entries[1..], name);
      r
  }

  /** With the cache unique by name, the details shown for a server are its
      one entry. */
  lemma DetailsForUnique<D>(entries: seq<ServerData<D>>, i: nat)
    requires UniqueByServer(entries) && i < |entries|
    ensures DetailsFor(entries, entries[i].server) == Some(entries[i])
  {
  }

  /** The rows whose favicon is in the page, in row order. */
  function Present(servers: seq<PopularServer>, averageColor: int -> Option<string>): (r: seq<PopularServer>)
    ensures |r| <= |servers|
    ensures forall k :: 0 <= k < |r| ==> averageColor(r[k].id).Some?
  {
    if servers == [] then []
    else
      var init, last := servers[..|servers| - 1], servers[|servers| - 1];
      Present(init, averageColor) + (if averageColor(last.id).Some? then [last] else [])
  }

  /** A row is present exactly when its favicon is in the page. */
  lemma {:induction false} PresentMembers(servers: seq<PopularServer>, averageColor: int -> Option<string>)
    ensures forall s :: s in Present(servers, averageColor) <==> s in servers && averageColor(s.id).Some?
  {
    if servers != [] {
      var init, last := servers[..|servers| - 1], servers[|servers| - 1];
      PresentMembers(init, averageColor);
      assert servers == init + [last];
    }
  }

  /** The colours the mount effect collects: one per row whose favicon is in
      the page, each the colour of the favicon of the id stored with it. */
  function ColorsOf(servers: seq<PopularServer>, averageColor: int -> Option<string>): (r: seq<HoverColor>)
    ensures |r| <= |servers|
    ensures forall c :: c in r ==> averageColor(c.id) == Some(c.color)
  {
    if servers == [] then []
    else
      var init, last := servers[..|servers| - 1], servers[|servers| - 1];
      ColorsOf(init, averageColor)
        + (match averageColor(last.id) case Some(c) => [HoverColor(last.id, c)] case None => [])
  }

  /** The `k`-th collected colour belongs to the `k`-th row whose favicon is
      in the page: the colours follow row order, skipping missing favicons. */
  lemma {:induction false} ColorsOfPresent(servers: seq<PopularServer>, averageColor: int -> Option<string>)
    ensures var present := Present(servers, averageColor);
            && |ColorsOf(servers, averageColor)| == |present|
            && forall k :: 0 <= k < |present| ==>
                 ColorsOf(servers, averageColor)[k] == HoverColor(present[k].id, averageColor(present[k].id).value)
  {
    if servers != [] {
      ColorsOfPresent(servers[..|servers| - 1], averageColor);
    }
  }

  /** One more row: its colour, if its favicon is in the page, goes last. */
  lemma ColorsOfStep(servers: seq<PopularServer>, averageColor: int -> Option<string>, i: nat)
    requires i < |servers|
    ensures ColorsOf(servers[..i + 1], averageColor)
              == ColorsOf(servers[..i], averageColor)
                 + (match averageColor(servers[i].id) case Some(c) => [HoverColor(servers[i].id, c)] case None => [])
  {
    assert servers[..i + 1][..i] == servers[..i];
  }

  /** `colors[s.id - 1]?.color`: the colour at position `id - 1`, whatever id
      is stored there; an id past the collected colours finds nothing. */
  function HoverColorAt(colors: seq<HoverColor>, id: int): (r: Option<string>)
    ensures r.Some? <==> 1 <= id <= |colors|
    ensures r.Some? ==> r.value == colors[id - 1].color
  {
    if 1 <= id <= |colors| then Some(colors[id - 1].color) else None
  }

  /** The hover colour of id `id` is the favicon colour of the `id`-th row
      whose favicon is in the page, which is that row itself only when no
      earlier favicon is missing; past the last such row there is none. */
  lemma HoverColorByPosition(servers: seq<PopularServer>, averageColor: int -> Option<string>, id: int)
    ensures var present := Present(servers, averageColor);
            HoverColorAt(ColorsOf(servers, averageColor), id)
              == if 1 <= id <= |present| then averageColor(present[id - 1].id) else None
  {
    ColorsOfPresent(servers, averageColor);
  }

  /** With every favicon in the page, every row is present. */
  lemma {:induction false} PresentAll(servers: seq<PopularServer>, averageColor: int -> Option<string>)
    requires forall s :: s in servers ==> averageColor(s.id).Some?
    ensures Present(servers, averageColor) == servers
  {
    if servers != [] {
      var init, last := servers[..|servers| - 1], servers[|servers| - 1];
      assert servers == init + [last];
      assert forall s :: s in init ==> s in servers;
      PresentAll(init, averageColor);
      assert last in servers;
    }
  }

  /** With every favicon in the page, one colour per row is collected, in
      row order. */
  lemma ColorsOfAllRendered(servers: seq<PopularServer>, averageColor: int -> Option<string>)
    requires forall s :: s in servers ==> averageColor(s.id).Some?
    ensures |ColorsOf(servers, averageColor)| == |servers|
    ensures forall k :: 0 <= k < |servers| ==>
              ColorsOf(servers, averageColor)[k] == HoverColor(servers[k].id, averageColor(servers[k].id).value)
  {
    PresentAll(servers, averageColor);
    ColorsOfPresent(servers, averageColor);
  }

  /** When every favicon is in the page and the rows have ids 1, 2, ... in
      order, each row gets the colour of its own favicon. */
  lemma HoverColorWhenAllRendered(servers: seq<PopularServer>, averageColor: int -> Option<string>, k: nat)
    requires forall s :: s in servers ==> averageColor(s.id).Some?
    requires forall i :: 0 <= i < |servers| ==> servers[i].id == i + 1
    requires k < |servers|
    ensures HoverColorAt(ColorsOf(servers, averageColor), servers[k].id) == averageColor(servers[k].id)
  {
    PresentAll(servers, averageColor);
    HoverColorByPosition(servers, averageColor, servers[k].id);
  }

  /** When the first row's favicon is missing, the first row gets the second
      row's colour and the second row none: the lookup is by position. */
  lemma HoverColorIsPositional(a: string, b: string, color: string)
    ensures var servers := [PopularServer(1, a), PopularServer(2, b)];
            var colors := ColorsOf(servers, id => if id == 2 then Some(color) else None);
            && colors == [HoverColor(2, color)]
            && HoverColorAt(colors, 1) == Some(color)
            && HoverColorAt(colors, 2) == None
  {
    var servers := [PopularServer(1, a), PopularServer(2, b)];
    var f: int -> Option<string> := id => if id == 2 then Some(color) else None;
    assert servers[..1] == [PopularServer(1, a)];
    assert servers[..1][..0] == [];
    assert ColorsOf(servers[..1], f) == [];
  }

  /** The list component's state. */
  class ServerList<D> {
    const servers: seq<PopularServer>
    var serversExpanded: seq<int>
    var colors: seq<HoverColor>
    var serverData: seq<ServerData<D>>

    ghost predicate Valid()
      reads this
    {
      NoDuplicates(serversExpanded) && UniqueByServer(serverData)
    }

    constructor (servers: seq<PopularServer>)
      ensures Valid() && this.servers == servers
      ensures serversExpanded == [] && colors == [] && serverData == []
    {
      this.servers := servers;
      serversExpanded, colors, serverData := [], [], [];
    }

    /** The mount effect: one colour per row whose favicon is in the page,
        appended in row order. */
    method CollectColors(averageColor: int -> Option<string>)
      modifies this`colors
      ensures colors == old(colors) + ColorsOf(servers, averageColor)
    {
      var i := 0;
      while i < |servers|
        invariant 0 <= i <= |servers|
        invariant colors == old(colors) + ColorsOf(servers[..i], averageColor)
      {
        var s := servers[i];
        ghost var before := ColorsOf(servers[..i], averageColor);
        ColorsOfStep(servers, averageColor, i);
        var color := averageColor(s.id);
        if color.Some? {
          colors := colors + [HoverColor(s.id, color.value)];
          assert colors == old(colors) + (before + [HoverColor(s.id, color.value)]);
        }
        i := i + 1;
      }
      assert servers[..|servers|] == servers;
    }

    /** A click on a row: ignored while the fetcher is busy; otherwise the
        row collapses, or expands and its data is loaded. */
    method Click(s: PopularServer, fetcherIdle: bool) returns (load: Option<string>)
      requires Valid()
      modifies this`serversExpanded
      ensures Valid()
      ensures serversExpanded == if fetcherIdle then Toggle(old(serversExpanded), s.id) else old(serversExpanded)
      ensures load == if fetcherIdle && s.id !in old(serversExpanded) then Some(DataUrl(s.server)) else None
    {
      ToggleFlips(serversExpanded, s.id);
      if !fetcherIdle {
        load := None;
      } else if s.id in serversExpanded {
        serversExpanded := Without(serversExpanded, s.id);
        load := None;
      } else {
        serversExpanded := serversExpanded + [s.id];
        load := Some(DataUrl(s.server));
      }
    }

    /** The effect on new fetcher data. */
    method Receive(data: Option<ServerData<D>>)
      requires Valid()
      modifies this`serverData
      ensures Valid()
      ensures serverData == Remember(old(serverData), data)
    {
      RememberAppendsOnce(serverData, data);
      var seen := HasServerNamed(data);
      if !seen && data.Some? {
        serverData := serverData + [data.value];
      }
    }

    /** `serverData.some((x) => x.server === fetcher.data?.server)` */
    method HasServerNamed(data: Option<ServerData<D>>) returns (found: bool)
      ensures found <==> data.Some? && HasServer(serverData, data.value.server)
    {
      found := false;
      if data.Some? {
        var i := 0;
        while i < |serverData| && !found
          invariant 0 <= i <= |serverData|
          invariant found <==> exists k :: 0 <= k < i && serverData[k].server == data.value.server
        {
          found := serverData[i].server == data.value.server;
          i := i + 1;
        }
      }
    }
  }
}
