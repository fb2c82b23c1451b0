/** The request loop: batches, client quotas, joins and leaves over a tile. */
module VinylServer {
  import opened Basics
  import opened VinylTypes
  import opened VinylStep
  import opened VinylInv
  import opened VinylOps
  import opened VinylRep
  import opened VinylRun
  import opened VinylTile

  class Server {
    const tile: Tile
    var clients: map<nat, Client>
    var free: int

    /** Starts serving a tile nothing is cached in. */
    constructor (t: Tile, lineCnt: nat)
      requires t.Valid() && Boot(System(t.m, map[], lineCnt - 1)) && t.row.Length == lineCnt
      ensures Valid() && tile == t && Sys() == System(t.m, map[], lineCnt - 1)
    {
      tile, clients, free := t, map[], lineCnt - 1;
      new;
      BootOk(Sys());
      hide Tile.Valid, SysInv, Boot;
    }

    ghost function Sys(): System
      reads this, tile
    {
      System(tile.m, clients, free)
    }

    ghost predicate Valid()
      reads this, tile, tile.ele, tile.row
    {
      tile.Valid() && SysInv(Sys())
    }

    /** Dispatches one item to its request handler. */
    method DoOne(it: Item) returns (err: Err)
      requires tile.Valid() && Evictable(tile.m.cache) && LegalItem(tile.m, it)
      modifies tile, tile.ele, tile.row
      ensures tile.Valid() && Reply(tile.m, err) == DoItem(old(tile.m), it)
    {
      hide Inv, Rep, Acquire, ReleaseLine, Erase, Move, Fetch, Flush, Evictable, ClientOk, ByAddr, ByKey;
      hide AcquireAddr, ReleaseAddr, MoveAddr, FetchAddr;
      match it
      case AcquireItem(f, key, valMax, addr) =>
        err := tile.AcquireItem(f, key, valMax, addr);
      case ReleaseItem(f, to, e, addr) =>
        var at: Option<nat>;
        match to {
          case ToKey(key) => at := tile.ResolveKey(key);
          case ToAddr(a) => at := tile.ResolveAddr(a);
        }
        if at.None? { return ErrInval; }
        ResolvedMeans(tile.m, to);
        tile.TableFacts();
        tile.ReleaseLineAt(f, at.value, e, addr);
        err := Success;
      case EraseItem(key) => err := tile.EraseItem(key);
      case MoveItem(src, dst, addr) =>
        err := tile.MoveItem(src, dst, addr);
      case FetchItem(key, addr) =>
        tile.FetchItem(key, addr);
        err := Success;
      case FlushItem(key) =>
        tile.FlushItem(key);
        err := Success;
    }

    /** Runs a batch item by item, charging and crediting the sender's quota. The
        eviction each item may need, and quota not running below zero, follow from the
        invariant. */
    method Handle(c: nat, items: seq<Item>)
      requires Valid() && Legal(Sys(), Request(c, items))
      modifies this, tile, tile.ele, tile.row
      ensures Valid() && Sys() == Do(old(Sys()), Request(c, items))
    {
      hide Tile.Valid, SysInv, LegalItem, DoItem, Carries, Moves, Evictable;
      if c !in clients || (items != [] && items[0].AcquireItem? && clients[c].rem < |items|) { return; }
      var i := 0;
      assert items[0..] == items;
      while i < |items|
        invariant 0 <= i <= |items| && c in clients && Valid() && LegalBatch(Sys(), c, items[i..])
        invariant Batch(Sys(), c, items[i..]) == Batch(old(Sys()), c, items)
        invariant (exists j | 0 <= j < |items| :: items[j].AcquireItem?) ==> |items| - i <= clients[c].rem
      {
        AlwaysEvictable(Sys());
        StepOk(Sys(), c, items[i]);
        assert items[i..][0] == items[i] && items[i..][1..] == items[i + 1..];
        var err := DoOne(items[i]);
        clients := clients[c := clients[c].(rem := clients[c].rem + QuotaChange(items[i], err))];
        i := i + 1;
      }
    }

    /** Admits a client if the quota it asks for is still to be had. */
    method Admit(c: nat, max: nat)
      requires Valid()
      modifies this
      ensures Valid() && Sys() == Do(old(Sys()), Join(c, max))
    {
      hide Tile.Valid, SysInv;
      EventOk(Sys(), Join(c, max));
      if c in clients || max > free || max > QUOTA_MAX { return; }
      clients, free := clients[c := Client(max, max)], free - max;
    }

    /** Lets a client go once it holds nothing. */
    method Dismiss(c: nat)
      requires Valid()
      modifies this
      ensures Valid() && Sys() == Do(old(Sys()), Leave(c))
    {
      hide Tile.Valid, SysInv;
      EventOk(Sys(), Leave(c));
      if c !in clients || clients[c].rem != clients[c].max { return; }
      free := free + clients[c].max;
      clients := clients - {c};
    }
  }
}
