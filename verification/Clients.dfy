/** Who owns a connected client, and who frees it: the admission rule of
    src/net/ClientAdmit.h and the client list of src/net/RetiTransportServer.cpp.

    An object that has been deleted stays an object here; what was deleted, and in
    what order, is written down beside the list. */
module Clients {
  import opened Bytes
  import opened Hdlc

  /** RNS_MTU over a LoRa frame: the longest packet the scratch buffer is made for. */
  const PACKET_MAX: nat := 508

  datatype Outcome = Accepted | RefusedRestarting | RefusedFull | RefusedNoMemory | RefusedNotEnrolled

  /** The framework's socket. */
  class AsyncClient {
    var connected: bool
    var canSend: bool
    var space: nat
    var wire: seq<byte>

    constructor ()
      ensures wire == []
    {
      connected, canSend, space, wire := true, true, 0, [];
    }

    /** The network's doing. */
    method Turns(connected: bool, canSend: bool, space: nat)
      modifies `connected, `canSend, `space
      ensures this.connected == connected && this.canSend == canSend && this.space == space
    {
      this.connected, this.canSend, this.space := connected, canSend, space;
    }
  }

  class ClientCtx {
    const id: nat
    const client: AsyncClient

    constructor (id: nat, client: AsyncClient)
      ensures this.id == id && this.client == client
    {
      this.id, this.client := id, client;
    }
  }

  // ---------------------------------------------------------------------
  // Who has what
  // ---------------------------------------------------------------------

  /** Every context made is in the list or was released, not both, and once. */
  ghost predicate Accounted(list: seq<ClientCtx>, made: seq<ClientCtx>, released: seq<ClientCtx>) {
    && Distinct(list) && Distinct(made) && Distinct(released)
    && (forall i :: 0 <= i < |list| ==> list[i] in made && list[i] !in released)
    && (forall i :: 0 <= i < |released| ==> released[i] in made)
    && (forall i :: 0 <= i < |made| ==> made[i] in list || made[i] in released)
  }

  ghost predicate Distinct<T>(s: seq<T>) { forall i, j :: 0 <= i < j < |s| ==> s[i] != s[j] }

  ghost function Sockets(list: seq<ClientCtx>): (s: seq<AsyncClient>)
    ensures |s| == |list| && forall i :: 0 <= i < |s| ==> s[i] == list[i].client
  {
    seq(|list|, i requires 0 <= i < |list| => list[i].client)
  }

  /** Every client handed over is in the list, or was freed, or has been refused and
      its close is still to come; only one of them, and freed once. */
  ghost predicate Held(list: seq<ClientCtx>, given: set<AsyncClient>, freed: seq<AsyncClient>,
                       closing: set<AsyncClient>) {
    && Distinct(freed) && Distinct(Sockets(list))
    && (forall a :: a in given ==> a in Sockets(list) || a in freed || a in closing)
    && (forall a :: a in Sockets(list) ==> a in given && a !in freed && a !in closing)
    && (forall a :: a in freed ==> a in given && a !in closing)
    && closing <= given
  }

  /** Contexts are numbered in the order they are made, on a 32-bit counter. */
  ghost predicate Numbered(made: seq<ClientCtx>, nextId: nat) {
    nextId == Wrap(1 + |made|) && forall i :: 0 <= i < |made| ==> made[i].id == Wrap(1 + i)
  }

  function Erase<T>(s: seq<T>, k: nat): seq<T>
    requires k < |s|
  {
    s[..k] + s[k + 1..]
  }

  lemma EraseHolds<T>(s: seq<T>, k: nat, x: T)
    requires k < |s|
    ensures x in s <==> x in Erase(s, k) || x == s[k]
  {
    assert s == s[..k] + [s[k]] + s[k + 1..];
  }

  lemma EraseDistinct<T>(s: seq<T>, k: nat)
    requires k < |s| && Distinct(s)
    ensures Distinct(Erase(s, k)) && s[k] !in Erase(s, k)
  {
    forall i, j | 0 <= i < j < |Erase(s, k)|
      ensures Erase(s, k)[i] != Erase(s, k)[j]
    {
      assert Erase(s, k)[i] == s[if i < k then i else i + 1] && Erase(s, k)[j] == s[if j < k then j else j + 1];
    }
  }

  lemma SocketsErase(list: seq<ClientCtx>, k: nat)
    requires k < |list|
    ensures Sockets(Erase(list, k)) == Erase(Sockets(list), k)
  {
  }

  lemma SocketsSnoc(list: seq<ClientCtx>, c: ClientCtx)
    ensures Sockets(list + [c]) == Sockets(list) + [c.client]
  {
  }

  lemma DistinctSnoc<T>(s: seq<T>, x: T)
    requires Distinct(s) && x !in s
    ensures Distinct(s + [x])
  {
  }

  // What each change of the list does to the accounts.

  lemma Enrols(list: seq<ClientCtx>, made: seq<ClientCtx>, released: seq<ClientCtx>, c: ClientCtx)
    requires Accounted(list, made, released) && c !in made
    ensures Accounted(list + [c], made + [c], released)
    ensures Accounted(list, made + [c], released + [c])
  {
  }

  lemma Releases(list: seq<ClientCtx>, made: seq<ClientCtx>, released: seq<ClientCtx>, k: nat)
    requires Accounted(list, made, released) && k < |list|
    ensures Accounted(Erase(list, k), made, released + [list[k]])
  {
    hide Erase;
    EraseDistinct(list, k);
    DistinctSnoc(released, list[k]);
    var rest := Erase(list, k);
    forall i | 0 <= i < |rest|
      ensures rest[i] in made && rest[i] !in released + [list[k]]
    {
      EraseHolds(list, k, rest[i]);
      assert rest[i] in rest && rest[i] != list[k] && rest[i] in list;
    }
    forall i | 0 <= i < |made|
      ensures made[i] in Erase(list, k) || made[i] in released + [list[k]]
    {
      EraseHolds(list, k, made[i]);
    }
  }

  lemma HoldsEnrolled(list: seq<ClientCtx>, given: set<AsyncClient>, freed: seq<AsyncClient>,
                      closing: set<AsyncClient>, c: ClientCtx)
    requires Held(list, given, freed, closing) && c.client !in given
    ensures Held(list + [c], given + {c.client}, freed, closing)
  {
    SocketsSnoc(list, c);
    hide Sockets;
    DistinctSnoc(Sockets(list), c.client);
  }

  lemma HoldsRefused(list: seq<ClientCtx>, given: set<AsyncClient>, freed: seq<AsyncClient>,
                     closing: set<AsyncClient>, a: AsyncClient)
    requires Held(list, given, freed, closing) && a !in given
    ensures Held(list, given + {a}, freed + [a], closing)
    ensures Held(list, given + {a}, freed, closing + {a})
  {
    hide Sockets;
    DistinctSnoc(freed, a);
  }

  lemma HoldsClosed(list: seq<ClientCtx>, given: set<AsyncClient>, freed: seq<AsyncClient>,
                    closing: set<AsyncClient>, a: AsyncClient)
    requires Held(list, given, freed, closing) && a in closing
    ensures Held(list, given, freed + [a], closing - {a})
  {
    hide Sockets;
    DistinctSnoc(freed, a);
  }

  lemma HoldsGone(list: seq<ClientCtx>, given: set<AsyncClient>, freed: seq<AsyncClient>,
                  closing: set<AsyncClient>, k: nat)
    requires Held(list, given, freed, closing) && k < |list|
    ensures Held(Erase(list, k), given, freed + [list[k].client], closing)
  {
    var sockets := Sockets(list);
    SocketsErase(list, k);
    EraseDistinct(sockets, k);
    hide Sockets, Erase;
    DistinctSnoc(freed, sockets[k]);
    forall a: AsyncClient
      ensures a in sockets <==> a in Erase(sockets, k) || a == sockets[k]
    {
      EraseHolds(sockets, k, a);
    }
  }

  lemma NumberedSnoc(made: seq<ClientCtx>, nextId: nat, c: ClientCtx)
    requires Numbered(made, nextId) && c.id == nextId
    ensures Numbered(made + [c], Wrap(nextId + 1))
  {
  }

  /** Two contexts have one id exactly when a multiple of 2^32 were made between them. */
  lemma SameIdIff(made: seq<ClientCtx>, nextId: nat, i: nat, j: nat)
    requires Numbered(made, nextId) && i <= j < |made|
    ensures made[i].id == made[j].id <==> Wrap(j - i) == 0
  {
  }

  /** The first context of an id. */
  ghost predicate FirstWith(list: seq<ClientCtx>, id: nat, k: int) {
    0 <= k < |list| && list[k].id == id && forall j :: 0 <= j < k ==> list[j].id != id
  }

  /** The socket can take the whole frame now. */
  ghost predicate Ready(a: AsyncClient, packet: seq<byte>)
    reads a
  {
    a.connected && a.canSend && a.space >= |Framed(packet)|
  }

  lemma SocketsApart(list: seq<ClientCtx>, given: set<AsyncClient>, freed: seq<AsyncClient>, closing: set<AsyncClient>)
    requires Held(list, given, freed, closing)
    ensures forall i, j :: 0 <= i < j < |list| ==> list[i].client != list[j].client
  {
    forall i, j | 0 <= i < j < |list|
      ensures list[i].client != list[j].client
    {
      assert Sockets(list)[i] != Sockets(list)[j];
    }
  }

  lemma FrameFits(packet: seq<byte>)
    ensures FrameCapacity(PACKET_MAX) < FrameCapacity(|packet|) <==> |packet| > PACKET_MAX
    ensures |Framed(packet)| <= FrameCapacity(|packet|)
  {
    FramedShape(packet);
  }

  /** While fewer than 2^32 contexts have been made, an id names one context at most,
      whether it is still in the list or not. */
  lemma OneWithId(made: seq<ClientCtx>, nextId: nat, a: ClientCtx, b: ClientCtx)
    requires Numbered(made, nextId) && |made| <= TWO_TO_32 && a in made && b in made && a.id == b.id
    ensures a == b
  {
    hide Wrap, Numbered;
    var i :| 0 <= i < |made| && made[i] == a;
    var j :| 0 <= j < |made| && made[j] == b;
    var first, last := if i <= j then i else j, if i <= j then j else i;
    SameIdIff(made, nextId, first, last);
    SmallWrap(last - first);
  }

  lemma SmallWrap(d: nat)
    requires d < TWO_TO_32
    ensures Wrap(d) == 0 <==> d == 0
  {
  }

  class Server {
    const cap: nat
    const frameBuf: array<byte>
    var clients: seq<ClientCtx>
    var nextId: nat
    var tcpClients: nat

    /** Contexts made, and deleted; clients handed over, deleted, and refused with
        their close still to come. */
    ghost var made: seq<ClientCtx>
    ghost var released: seq<ClientCtx>
    ghost var given: set<AsyncClient>
    ghost var freed: seq<AsyncClient>
    var closing: set<AsyncClient>

    ghost predicate Valid()
      reads this
    {
      && |clients| <= cap && tcpClients == |clients| && frameBuf.Length == FrameCapacity(PACKET_MAX)
      && Accounted(clients, made, released) && Held(clients, given, freed, closing) && Numbered(made, nextId)
    }

    constructor (cap: nat)
      ensures Valid() && this.cap == cap && fresh(frameBuf) && clients == [] && given == {} && made == []
    {
      this.cap := cap;
      frameBuf := new byte[FrameCapacity(PACKET_MAX)];
      clients, nextId, tcpClients := [], 1, 0;
      made, released, given, freed, closing := [], [], {}, [], {};
    }

    /** A client that is turned away is freed by whoever turned it away: at once when
        its close goes through, and when it does not by the callback left with it. */
    method Refuse(client: AsyncClient, closes: bool)
      requires Valid() && client !in given
      modifies `given, `freed, `closing
      ensures Valid() && given == old(given) + {client}
      ensures freed == old(freed) + (if closes then [client] else [])
      ensures closing == old(closing) + (if closes then {} else {client})
    {
      hide Held;
      HoldsRefused(clients, given, freed, closing, client);
      given := given + {client};
      if closes { freed := freed + [client]; } else { closing := closing + {client}; }
    }

    /** The order the costs come in: a restart, the cap, the context, the list.
        `memory` and `room` say whether the heap can serve the context and the list;
        on every outcome but `Accepted` nothing is left behind. */
    method Admit(client: AsyncClient, restarting: bool, memory: bool, room: bool, closes: bool)
      returns (outcome: Outcome, ctx: ClientCtx?)
      requires Valid() && client !in given
      modifies `clients, `nextId, `tcpClients, `made, `released, `given, `freed, `closing
      ensures Valid() && given == old(given) + {client}
      ensures outcome.RefusedRestarting? <==> restarting
      ensures outcome.RefusedFull? <==> !restarting && |old(clients)| >= cap
      ensures outcome.RefusedNoMemory? <==> !restarting && |old(clients)| < cap && !memory
      ensures outcome.RefusedNotEnrolled? <==> !restarting && |old(clients)| < cap && memory && !room
      ensures outcome.Accepted? <==> ctx != null
      ensures ctx != null ==>
        && fresh(ctx) && ctx.client == client && ctx.id == old(nextId)
        && clients == old(clients) + [ctx] && made == old(made) + [ctx]
        && released == old(released) && freed == old(freed) && closing == old(closing)
      ensures ctx == null ==>
        && clients == old(clients)
        && freed == old(freed) + (if closes then [client] else [])
        && closing == old(closing) + (if closes then {} else {client})
      ensures !outcome.Accepted? && !outcome.RefusedNotEnrolled? ==>
        made == old(made) && released == old(released) && nextId == old(nextId)
      ensures outcome.RefusedNotEnrolled? ==>
        |made| == |old(made)| + 1 && made == old(made) + [Last(made)] && released == old(released) + [Last(made)]
    {
      hide Accounted, Held, Numbered;
      ctx := null;
      if restarting {
        Refuse(client, closes);
        return RefusedRestarting, null;
      }
      if |clients| >= cap {
        Refuse(client, closes);
        return RefusedFull, null;
      }
      if !memory {
        Refuse(client, closes);
        return RefusedNoMemory, null;
      }
      var c := new ClientCtx(nextId, client);
      Enrols(clients, made, released, c);
      NumberedSnoc(made, nextId, c);
      nextId := Wrap(nextId + 1);
      made := made + [c];
      if !room {
        released := released + [c];
        Refuse(client, closes);
        return RefusedNotEnrolled, null;
      }
      HoldsEnrolled(clients, given, freed, closing, c);
      clients := clients + [c];
      tcpClients := |clients|;
      given := given + {client};
      return Accepted, c;
    }

    /** The callback left with a refused client, when its socket goes at last. */
    method OnRefusedGone(client: AsyncClient)
      requires Valid() && client in closing
      modifies `freed, `closing
      ensures Valid() && freed == old(freed) + [client] && closing == old(closing) - {client}
    {
      hide Held;
      HoldsClosed(clients, given, freed, closing, client);
      freed := freed + [client];
      closing := closing - {client};
    }

    /** An enrolled client's socket has gone: out of the list, then both deleted. */
    method OnDisconnect(ctx: ClientCtx)
      requires Valid() && ctx in clients
      modifies `clients, `tcpClients, `released, `freed
      ensures Valid() && ctx !in clients && |clients| == |old(clients)| - 1
      ensures released == old(released) + [ctx] && freed == old(freed) + [ctx.client]
      ensures exists k :: 0 <= k < |old(clients)| && old(clients)[k] == ctx && clients == Erase(old(clients), k)
    {
      hide Accounted, Held, Erase, Numbered;
      var k := 0;
      while clients[k] != ctx
        invariant 0 <= k < |clients| && ctx in clients[k..]
        decreases |clients| - k
      {
        k := k + 1;
      }
      Releases(clients, made, released, k);
      HoldsGone(clients, given, freed, closing, k);
      Gone(clients, made, released, k);
      clients := Erase(clients, k);
      tcpClients := |clients|;
      released := released + [ctx];
      freed := freed + [ctx.client];
    }

    /** One packet to one client: framed into the scratch buffer and written whole to
        the first context of that id, if its socket can take all of it now. Only
        sockets of contexts in the list are looked at. */
    method SendTo(id: nat, packet: seq<byte>) returns (ok: bool)
      requires Valid()
      modifies frameBuf, set c | c in clients :: c.client
      ensures Valid()
      ensures ok <==>
        |packet| <= PACKET_MAX && exists k :: FirstWith(clients, id, k) && old(Ready(clients[k].client, packet))
      ensures ok <==> |packet| <= 508 && exists k ::
        (&& 0 <= k < |clients| && clients[k].id == id && (forall j :: 0 <= j < k ==> clients[j].id != id)
         && old(clients[k].client.connected && clients[k].client.canSend
                && clients[k].client.space >= |Framed(packet)|))
      ensures forall i :: 0 <= i < |clients| ==>
        clients[i].client.wire
        == old(clients[i].client.wire) + if ok && FirstWith(clients, id, i) then Framed(packet) else []
    {
      hide Accounted, Numbered, Framed, Distinct;
      ok := false;
      SocketsApart(clients, given, freed, closing);
      var frameLen := Frame(packet, frameBuf, frameBuf.Length);
      FrameFits(packet);
      if frameLen > 0 {
        var k := 0;
        while k < |clients| && clients[k].id != id
          invariant 0 <= k <= |clients| && forall j :: 0 <= j < k ==> clients[j].id != id
        {
          k := k + 1;
        }
        if k < |clients| {
          var c := clients[k].client;
          if c.connected && c.canSend && c.space >= frameLen {
            assert FirstWith(clients, id, k) && Ready(c, packet);
            c.wire := c.wire + frameBuf[..frameLen];
            ok := true;
          }
        }
      }
    }
  }

  lemma Gone(list: seq<ClientCtx>, made: seq<ClientCtx>, released: seq<ClientCtx>, k: nat)
    requires Accounted(list, made, released) && k < |list|
    ensures list[k] !in Erase(list, k) && |Erase(list, k)| == |list| - 1
  {
    EraseDistinct(list, k);
  }

  // ---------------------------------------------------------------------
  // Over whole runs
  // ---------------------------------------------------------------------

  /** What the framework and the RNS task ask for, and what becomes of a socket: how
      much it can take now. Places are places in the list, and one that is not there is
      no event. */
  datatype Event =
    | Connect(restarting: bool, memory: bool, room: bool, closes: bool)
    | Disconnect(k: nat)
    | Socket(k: nat, connected: bool, canSend: bool, space: nat)
    | LateClose
    | Send(id: nat, packet: seq<byte>)

  /** Only whole framed packets ever went onto a socket. */
  ghost predicate WholeFrames(a: AsyncClient)
    reads a
  {
    exists ps: seq<seq<byte>> :: a.wire == FramedAll(ps)
  }

  lemma NoFrames()
    ensures FramedAll([]) == []
  {
  }

  lemma FramesSnoc(wire: seq<byte>, packet: seq<byte>)
    requires exists ps: seq<seq<byte>> :: wire == FramedAll(ps)
    ensures exists ps: seq<seq<byte>> :: wire + Framed(packet) == FramedAll(ps)
  {
    var ps :| wire == FramedAll(ps);
    FramedAllSnoc([], ps, packet);
    assert wire + Framed(packet) == FramedAll(ps + [packet]);
  }

  /** A send into a whole run leaves every socket with whole frames. */
  method SendWhole(s: Server, id: nat, packet: seq<byte>) returns (ok: bool)
    requires s.Valid() && forall a :: a in s.given ==> WholeFrames(a)
    modifies s.frameBuf, set c | c in s.clients :: c.client
    ensures s.Valid() && forall a :: a in s.given ==> WholeFrames(a)
    ensures ok <==>
      && |packet| <= PACKET_MAX
      && exists k :: FirstWith(s.clients, id, k) && old(Ready(s.clients[k].client, packet))
  {
    hide Accounted, Held, Numbered, Framed, FramedAll;
    ghost var wires := map a: AsyncClient | a in s.given :: a.wire;
    SocketsGiven(s.clients, s.given, s.freed, s.closing);
    ok := s.SendTo(id, packet);
    forall a | a in s.given
      ensures WholeFrames(a)
    {
      FramesSnoc(wires[a], packet);
      if i :| 0 <= i < |s.clients| && s.clients[i].client == a {
        assert a.wire == wires[a] + if ok && FirstWith(s.clients, id, i) then Framed(packet) else [];
      } else {
        assert a.wire == wires[a];
      }
    }
  }

  /** Whatever comes, in whatever order, with whatever failing. */
  method Run(s: Server, events: seq<Event>)
    requires s.Valid() && s.clients == [] && s.given == {}
    modifies s, s.frameBuf
    ensures s.Valid() && forall a :: a in s.given ==> WholeFrames(a)
    ensures s.clients == [] && s.closing == {} ==>
      && Distinct(s.released) && Distinct(s.freed)
      && multiset(s.released) == multiset(s.made) && (set a | a in s.freed) == s.given
  {
    hide Accounted, Held, Numbered, FramedAll;
    NoSockets(s.clients, s.given, s.freed, s.closing);
    for i := 0 to |events|
      invariant s.Valid() && fresh(s.given) && forall a :: a in s.given ==> WholeFrames(a)
    {
      match events[i] {
        case Connect(restarting, memory, room, closes) =>
          var client := new AsyncClient();
          NoFrames();
          assert client.wire == FramedAll([]);
          var outcome, ctx := s.Admit(client, restarting, memory, room, closes);
        case Disconnect(k) =>
          if k < |s.clients| { s.OnDisconnect(s.clients[k]); }
        case Socket(k, connected, canSend, space) =>
          if k < |s.clients| {
            SocketsGiven(s.clients, s.given, s.freed, s.closing);
            s.clients[k].client.Turns(connected, canSend, space);
          }
        case LateClose =>
          if s.closing != {} {
            var client :| client in s.closing;
            s.OnRefusedGone(client);
          }
        case Send(id, packet) =>
          SocketsGiven(s.clients, s.given, s.freed, s.closing);
          var ok := SendWhole(s, id, packet);
      }
    }
    if s.clients == [] && s.closing == {} { AllGone(s.made, s.released, s.given, s.freed); }
  }

  lemma FirstIn(s: seq<AsyncClient>, t: set<AsyncClient>)
    requires forall a :: a in s ==> a in t
    ensures s != [] ==> s[0] in t
  {
  }

  lemma NoSockets(list: seq<ClientCtx>, given: set<AsyncClient>, freed: seq<AsyncClient>, closing: set<AsyncClient>)
    requires Held(list, given, freed, closing) && given == {}
    ensures list == [] && freed == [] && closing == {}
  {
    FirstIn(Sockets(list), given);
    FirstIn(freed, given);
  }

  lemma SocketsGiven(list: seq<ClientCtx>, given: set<AsyncClient>, freed: seq<AsyncClient>, closing: set<AsyncClient>)
    requires Held(list, given, freed, closing)
    ensures forall i :: 0 <= i < |list| ==> list[i].client in given
  {
    forall i | 0 <= i < |list|
      ensures list[i].client in given
    {
      assert Sockets(list)[i] in Sockets(list);
    }
  }

  /** Once everybody has gone, every context made has been released and every client
      handed over has been freed, each exactly once. */
  lemma AllGone(made: seq<ClientCtx>, released: seq<ClientCtx>, given: set<AsyncClient>, freed: seq<AsyncClient>)
    requires Accounted([], made, released) && Held([], given, freed, {})
    ensures Distinct(released) && Distinct(freed)
    ensures multiset(released) == multiset(made) && (set a | a in freed) == given
  {
    SameOnce(made, released);
    assert Sockets([]) == [];
  }

  lemma SameOnce<T>(a: seq<T>, b: seq<T>)
    requires Distinct(a) && Distinct(b)
    requires forall i :: 0 <= i < |a| ==> a[i] in b
    requires forall i :: 0 <= i < |b| ==> b[i] in a
    ensures multiset(a) == multiset(b)
  {
    forall x: T
      ensures multiset(a)[x] == multiset(b)[x]
    {
      OnceIn(a, x);
      OnceIn(b, x);
    }
  }

  lemma {:induction false} OnceIn<T>(s: seq<T>, x: T)
    requires Distinct(s)
    ensures multiset(s)[x] == if x in s then 1 else 0
  {
    if s != [] {
      assert s == Init(s) + [Last(s)];
      DistinctInit(s);
      OnceIn(Init(s), x);
    }
  }

  lemma DistinctInit<T>(s: seq<T>)
    requires Distinct(s) && s != []
    ensures Distinct(Init(s)) && Last(s) !in Init(s)
  {
  }
}
