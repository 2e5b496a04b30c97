/** The dashboard index: which of the user's Discord guilds are listed, and
    in what order. */
module Dashboard {
  import opened Js

  datatype Guild = Guild(id: string, name: string, icon: Option<string>, owner: bool,
                         permissions: int, features: seq<string>, permissionsNew: string)

  /** Discord's Manage Server permission bit. */
  const ManageServer: bv32 := 0x20

  /** The 32 bits JavaScript's `&` works on: the number modulo 2^32. */
  function Int32Bits(n: int): bv32 {
    (n % 0x1_0000_0000) as bv32
  }

  /** `(guild.permissions & 0x20) == 0x20`: bit 5 of the permissions taken
      modulo 2^32, so it holds for 0x20 and for -1 (all bits set) but not for 2^32. */
  predicate CanManage(g: Guild)
    ensures g.permissions == 0x20 || g.permissions == -1 ==> CanManage(g)
    ensures g.permissions == 0 || g.permissions == 0x1_0000_0000 || g.permissions == 0x1F ==> !CanManage(g)
  {
    Int32Bits(g.permissions) & ManageServer == ManageServer
  }

  /** The guilds the user can manage, in the order given. */
  function Managed(guilds: seq<Guild>): (r: seq<Guild>)
    ensures forall g :: g in r ==> CanManage(g)
    ensures forall g :: CanManage(g) ==> multiset(r)[g] == multiset(guilds)[g]
    ensures forall g :: !CanManage(g) ==> multiset(r)[g] == 0
  {
    if guilds == [] then []
    else
      assert guilds == [guilds[0]] + guilds[1..];
      (if CanManage(guilds[0]) then [guilds[0]] else []) + Managed(guilds[1..])
  }

  /** The page's comparator: owned guilds before the others, and 0 between
      two guilds of the same ownership. */
  function OwnersFirst(a: Guild, b: Guild): (c: int)
    ensures c == 0 <==> a.owner == b.owner
    ensures c < 0 <==> a.owner && !b.owner
    ensures c > 0 <==> b.owner && !a.owner
  {
    if a.owner && !b.owner then -1
    else if b.owner && !a.owner then 1
    else 0
  }

  /** Inserts `x` before the first element it does not sort after. */
  function Insert<T>(x: T, sorted: seq<T>, cmp: (T, T) -> int): seq<T> {
    if sorted == [] then [x]
    else if cmp(x, sorted[0]) <= 0 then [x] + sorted
    else [sorted[0]] + Insert(x, sorted[1..], cmp)
  }

  /** `Array.prototype.sort` with a comparator: a stable sort, here by insertion. */
  function Sort<T>(s: seq<T>, cmp: (T, T) -> int): seq<T> {
    if s == [] then [] else Insert(s[0], Sort(s[1..], cmp), cmp)
  }

  /** Inserting adds `x` and nothing else, whatever the comparator. */
  lemma {:induction false} InsertPermutes<T>(x: T, sorted: seq<T>, cmp: (T, T) -> int)
    ensures multiset(Insert(x, sorted, cmp)) == multiset(sorted) + multiset{x}
  {
    if sorted != [] && cmp(x, sorted[0]) > 0 {
      InsertPermutes(x, sorted[1..], cmp);
      assert sorted == [sorted[0]] + sorted[1..];
    }
  }

  /** Sorting only reorders, whatever the comparator: nothing is added,
      dropped or duplicated. */
  lemma {:induction false} SortPermutes<T>(s: seq<T>, cmp: (T, T) -> int)
    ensures multiset(Sort(s, cmp)) == multiset(s)
  {
    if s != [] {
      SortPermutes(s[1..], cmp);
      InsertPermutes(s[0], Sort(s[1..], cmp), cmp);
      assert s == [s[0]] + s[1..];
    }
  }

  /** The owned guilds of a list, in their order. */
  function Owned(s: seq<Guild>): (r: seq<Guild>)
    ensures forall g :: g in r ==> g.owner
  {
    if s == [] then [] else (if s[0].owner then [s[0]] else []) + Owned(s[1..])
  }

  /** The guilds of a list that the user does not own, in their order. */
  function NotOwned(s: seq<Guild>): (r: seq<Guild>)
    ensures forall g :: g in r ==> !g.owner
  {
    if s == [] then [] else (if s[0].owner then [] else [s[0]]) + NotOwned(s[1..])
  }

  lemma {:induction false} InsertNotOwned(x: Guild, owned: seq<Guild>, others: seq<Guild>)
    requires !x.owner
    requires forall g :: g in owned ==> g.owner
    requires forall g :: g in others ==> !g.owner
    ensures Insert(x, owned + others, OwnersFirst) == owned + [x] + others
  {
    if owned != [] {
      assert (owned + others)[1..] == owned[1..] + others;
      InsertNotOwned(x, owned[1..], others);
    }
  }

  lemma {:induction false} InsertOwned(x: Guild, owned: seq<Guild>, others: seq<Guild>)
    requires x.owner
    ensures Insert(x, owned + others, OwnersFirst) == [x] + owned + others
  {
  }

  /** Sorting with the page's comparator puts the owned guilds first and the
      others after them, each group keeping its order in the input. */
  lemma {:induction false} SortOwnersFirst(s: seq<Guild>)
    ensures Sort(s, OwnersFirst) == Owned(s) + NotOwned(s)
  {
    if s != [] {
      SortOwnersFirst(s[1..]);
      assert s == [s[0]] + s[1..];
      if s[0].owner {
        SortStepOwned(s[0], s[1..]);
      } else {
        SortStepNotOwned(s[0], s[1..]);
      }
    }
  }

  /** One step of the sort: an owned head goes in front of everything. */
  lemma {:induction false} SortStepOwned(x: Guild, tail: seq<Guild>)
    requires x.owner
    requires Sort(tail, OwnersFirst) == Owned(tail) + NotOwned(tail)
    ensures Sort([x] + tail, OwnersFirst) == Owned([x] + tail) + NotOwned([x] + tail)
  {
    SplitCons(x, tail);
    InsertOwned(x, Owned(tail), NotOwned(tail));
  }

  /** One step of the sort: a head the user does not own goes after the
      owned guilds and before the others. */
  lemma {:induction false} SortStepNotOwned(x: Guild, tail: seq<Guild>)
    requires !x.owner
    requires Sort(tail, OwnersFirst) == Owned(tail) + NotOwned(tail)
    ensures Sort([x] + tail, OwnersFirst) == Owned([x] + tail) + NotOwned([x] + tail)
  {
    var o, n := Owned(tail), NotOwned(tail);
    SplitCons(x, tail);
    InsertNotOwned(x, o, n);
    assert o + [x] + n == o + ([x] + n);
  }

  /** The sort, and the split by ownership, of a list with head `x`. */
  lemma {:induction false} SplitCons(x: Guild, tail: seq<Guild>)
    ensures Sort([x] + tail, OwnersFirst) == Insert(x, Sort(tail, OwnersFirst), OwnersFirst)
    ensures Owned([x] + tail) == (if x.owner then [x] else []) + Owned(tail)
    ensures NotOwned([x] + tail) == (if x.owner then [] else [x]) + NotOwned(tail)
  {
    var s := [x] + tail;
    assert s[0] == x && s[1..] == tail;
  }

  /** Splitting a list by ownership loses and adds nothing. */
  lemma {:induction false} OwnedNotOwnedPermutes(s: seq<Guild>)
    ensures multiset(Owned(s) + NotOwned(s)) == multiset(s)
  {
    if s != [] {
      OwnedNotOwnedPermutes(s[1..]);
      assert s == [s[0]] + s[1..];
    }
  }

  /** The guilds the page lists, in the order shown: the filtered guilds,
      reordered. */
  function Displayed(guilds: seq<Guild>): (d: seq<Guild>)
    ensures multiset(d) == multiset(Managed(guilds))
  {
    SortPermutes(Managed(guilds), OwnersFirst);
    Sort(Managed(guilds), OwnersFirst)
  }

  /** The listed guilds are exactly those with the Manage Server bit, each as
      often as in the input (nothing added, dropped or duplicated); the owned
      ones come first, and within each group the input order is kept. */
  lemma DisplayedGuilds(guilds: seq<Guild>)
    ensures Displayed(guilds) == Owned(Managed(guilds)) + NotOwned(Managed(guilds))
    ensures multiset(Displayed(guilds)) == multiset(Managed(guilds))
    ensures forall g :: g in Displayed(guilds) <==> g in guilds && CanManage(g)
    ensures forall i, j :: 0 <= i < j < |Displayed(guilds)| && Displayed(guilds)[j].owner ==> Displayed(guilds)[i].owner
  {
    SortOwnersFirst(Managed(guilds));
    DisplayedMembers(guilds);
    OwnersBeforeOthers(Owned(Managed(guilds)), NotOwned(Managed(guilds)));
  }

  /** A guild is listed exactly when it is in the input and manageable. */
  lemma DisplayedMembers(guilds: seq<Guild>)
    ensures forall g :: g in Displayed(guilds) <==> g in guilds && CanManage(g)
  {
    var d := Displayed(guilds);
    assert forall g :: g in d <==> g in multiset(d);
    assert forall g :: g in guilds <==> g in multiset(guilds);
  }

  /** Owned guilds followed by guilds that are not owned: no owned guild
      comes after one that is not. */
  lemma OwnersBeforeOthers(owned: seq<Guild>, others: seq<Guild>)
    requires forall g :: g in owned ==> g.owner
    requires forall g :: g in others ==> !g.owner
    ensures forall i, j :: 0 <= i < j < |owned + others| && (owned + others)[j].owner ==> (owned + others)[i].owner
  {
    var d := owned + others;
    forall i, j | 0 <= i < j < |d| ensures d[j].owner ==> d[i].owner {
      if j >= |owned| {
        assert d[j] in others;
      } else {
        assert d[i] in owned;
      }
    }
  }

  /** What `getUserGuilds` gave back, as far as the loader and the page can
      tell: an array of guilds, `null` (whose `typeof` is also "object"),
      another object (one without `length`, such as an error body), or a
      value that is not an object at all. */
  datatype GuildsValue = GuildArray(guilds: seq<Guild>) | NullValue | OtherObject | NotAnObject

  datatype LoaderResponse = RedirectTo(location: string) | Thrown(message: string) | GuildsJson(guilds: GuildsValue)

  /** What the page renders: the message, the grid, or the TypeError of
      reading `length` of `null`. */
  datatype View = NoServersMessage | GuildGrid(guilds: seq<Guild>) | RenderThrows

  /** The page, given what the loader sent (never a non-object, on which the
      loader throws): `guilds.length ?` decides between grid and message on
      the unfiltered value. */
  function Render(value: GuildsValue): (v: View)
    requires !value.NotAnObject?
    ensures v.RenderThrows? <==> value.NullValue?
    ensures v.NoServersMessage? <==> value.OtherObject? || (value.GuildArray? && |value.guilds| == 0)
    ensures v.GuildGrid? ==> value.GuildArray? && v.guilds == Displayed(value.guilds)
    ensures v.GuildGrid? ==> multiset(v.guilds) == multiset(Managed(value.guilds))
  {
    match value
    case NullValue => RenderThrows
    case OtherObject => NoServersMessage
    case GuildArray(guilds) =>
      if |guilds| > 0 then GuildGrid(Displayed(guilds)) else NoServersMessage
  }

  /** A non-empty list without a manageable guild renders an empty grid, not
      the "you don't manage any servers" message. */
  lemma NoManageableGuildRendersEmptyGrid(guilds: seq<Guild>)
    requires |guilds| > 0 && forall g :: g in guilds ==> !CanManage(g)
    ensures Render(GuildArray(guilds)) == GuildGrid([])
  {
    assert multiset(Displayed(guilds)) == multiset{};
  }

  /** The dashboard loader: no user means a redirect to the login page; a
      guild value that is not an object is an error; anything else is sent on. */
  function Loader(signedIn: bool, guilds: GuildsValue): (r: LoaderResponse)
    ensures r.RedirectTo? <==> !signedIn
    ensures r.RedirectTo? ==> r.location == "/login"
    ensures r.Thrown? <==> signedIn && guilds.NotAnObject?
    ensures r.GuildsJson? ==> r.guilds == guilds && !guilds.NotAnObject?
  {
    if !signedIn then RedirectTo("/login")
    else if guilds.NotAnObject? then Thrown("'Guilds' is not an object!")
    else GuildsJson(guilds)
  }
}
