/** The handlers of login sessions as the program runs them: objects that point
    at each other, searches and updates of lists, one element after the other.
    Each handler is proved to perform the step of module Session, and to leave no
    pointer to a deleted object. */
module SessionState {
  import opened Seqs
  import opened Wrappers
  import opened Session

  /** A client of the proxy. The specification names it by a number. */
  class LinkedServer {
    ghost const id: nat
    var connection: Connection?
    var phase: Phase
    var socket: bool
    var authId: nat
    ghost var checked: Option<Login>
    ghost var presented: Option<Login>

    ghost function Value(): Client
      reads this
    {
      Client(if connection == null then None else Some(connection.id), phase, socket, authId, checked, presented)
    }

    constructor (ghost id: nat)
      ensures this.id == id && connection == null && Value() == NEW_CLIENT
    {
      this.id := id;
      connection, phase, socket, authId := null, INIT, true, 0;
      checked, presented := None, None;
    }
  }

  /** A connection and the clients that share it. */
  class Connection {
    ghost const id: nat
    var servers: seq<LinkedServer>
    var credentials: Login
    var serverIndex: nat
    var connecting: bool
    var connected: bool
    var inGame: bool
    var charList: bool

    ghost function Value(): Session.Connection
      reads this
    {
      Session.Connection.Connection(Names(servers), credentials, serverIndex, connecting, connected, inGame, charList)
    }

    predicate CanAttach()
      reads this
    {
      inGame && charList
    }

    constructor (ghost id: nat)
      ensures this.id == id && servers == []
      ensures Value() == UNUSED
    {
      this.id := id;
      servers, credentials, serverIndex := [], NO_LOGIN, 0;
      connecting, connected, inGame, charList := false, false, false, false;
    }
  }

  ghost function Names(servers: seq<LinkedServer>): (r: seq<nat>)
    ensures |r| == |servers| && forall k :: 0 <= k < |servers| ==> r[k] == servers[k].id
  {
    seq(|servers|, k requires 0 <= k < |servers| => servers[k].id)
  }

  lemma NamesCons(link: LinkedServer, servers: seq<LinkedServer>)
    ensures Names([link] + servers) == [link.id] + Names(servers)
  {
  }

  lemma {:induction false} NamesUnlinked(servers: seq<LinkedServer>, link: LinkedServer)
    requires forall l :: l in servers && l.id == link.id ==> l == link
    ensures Names(Unlinked(servers, link)) == Unlinked(Names(servers), link.id)
    ensures forall l :: l in Unlinked(servers, link) ==> l in servers
  {
    if servers != [] {
      var first, rest := servers[0], servers[1..];
      NamesUnlinked(rest, link);
      assert Names(servers)[1..] == Names(rest);
      NamesCons(first, Unlinked(rest, link));
    }
  }

  const NEW_CLIENT := Client(None, INIT, true, 0, None, None)

  /** A connection that nobody has used. */
  const UNUSED := Session.Connection.Connection([], NO_LOGIN, 0, false, false, false, false)

  ghost predicate HasLink(links: set<LinkedServer>, m: nat) {
    exists l :: l in links && l.id == m
  }

  ghost predicate HasHub(hubs: set<Connection>, c: nat) {
    exists d :: d in hubs && d.id == c
  }

  /** Some clients of a connection are deleted, and the others left. */
  ghost function Shed(p: Proxy, c: nat, gone: seq<nat>, left: seq<nat>): Proxy
    requires c in p.connections
  {
    p.(clients := map m | m in p.clients && m !in gone :: p.clients[m],
       connections := p.connections[c := p.connections[c].(servers := left)])
  }

  lemma ShedNone(p: Proxy, c: nat)
    requires c in p.connections
    ensures Shed(p, c, [], p.connections[c].servers) == p
  {
    assert p.connections[c := p.connections[c]] == p.connections;
  }

  lemma ShedNext(p: Proxy, c: nat, gone: seq<nat>, m: nat, left: seq<nat>, left': seq<nat>)
    requires c in p.connections
    ensures var p1 := Shed(p, c, gone, left);
            Deleted(WithConnection(p1, c, p1.connections[c].(servers := left')), m) == Shed(p, c, gone + [m], left')
  {
    var p1 := Shed(p, c, gone, left);
    assert p1.clients - {m} == Shed(p, c, gone + [m], left').clients;
  }

  lemma ShedAll(p: Proxy, c: nat, all: seq<nat>)
    requires c in p.connections && p.connections[c].servers == all
    ensures var p1 := Shed(p, c, all, []);
            p1.(connections := p1.connections - {c}, order := Unlinked(p1.order, c)) == Destroyed(p, c)
  {
    assert Shed(p, c, all, []).connections - {c} == p.connections - {c};
  }

  lemma NamesSplit(servers: seq<LinkedServer>, k: nat)
    requires k < |servers|
    ensures Names(servers[..k + 1]) == Names(servers[..k]) + [servers[k].id]
    ensures servers[k..][1..] == servers[k + 1..] && servers[..k + 1] == servers[..k] + [servers[k]]
  {
  }

  class Instance {
    const config: Config
    var connections: seq<Connection>

    /** The objects that exist, and what they stand for. */
    ghost var links: set<LinkedServer>
    ghost var hubs: set<Connection>
    ghost var state: Proxy

    /** All objects that were ever created. */
    ghost var repr: set<object>

    /** A client's fields are those of the state, and it points at a connection
        that exists. */
    ghost predicate LinksSound()
      reads this`links, this`hubs, this`state, this`repr, repr
    {
      forall l :: l in links ==>
        && l in repr && l.id in state.clients && l.Value() == state.clients[l.id]
        && (l.connection != null ==> l.connection in hubs)
    }

    /** So are a connection's, and the clients in its list exist. */
    ghost predicate HubsSound()
      reads this`links, this`hubs, this`state, this`repr, repr
    {
      forall c :: c in hubs ==>
        && c in repr && c.id in state.connections && c.Value() == state.connections[c.id]
        && forall l :: l in c.servers ==> l in links
    }

    ghost predicate ListSound()
      reads this`connections, this`hubs, this`state
    {
      && |connections| == |state.order|
      && forall k :: 0 <= k < |connections| ==> connections[k] in hubs && connections[k].id == state.order[k]
    }

    /** A number names one object, and everything in the state has one. */
    ghost predicate Named()
      reads this`links, this`hubs, this`state
    {
      && (forall a, b :: a in links && b in links && a.id == b.id ==> a == b)
      && (forall a, b :: a in hubs && b in hubs && a.id == b.id ==> a == b)
      && (forall m {:trigger HasLink(links, m)} :: m in state.clients ==> HasLink(links, m))
      && (forall c {:trigger HasHub(hubs, c)} :: c in state.connections ==> HasHub(hubs, c))
    }

    /** The objects stand for the state, and no pointer or list leads to an object
        that was deleted. */
    ghost predicate Sound()
      reads this, repr
    {
      this !in repr && LinksSound() && HubsSound() && ListSound() && Named() && state.config == config
    }

    constructor (config: Config)
      ensures Sound() && state == Initial(config) && repr == {}
    {
      this.config := config;
      connections, links, hubs, state, repr := [], {}, {}, Initial(config), {};
    }

    // ---- Fields of one object ----

    method SetPhase(link: LinkedServer, phase: Phase)
      requires Sound() && link in links
      modifies link`phase, `state
      ensures Sound() && state == WithClient(old(state), link.id, old(state).clients[link.id].(phase := phase))
    {
      state := WithClient(state, link.id, state.clients[link.id].(phase := phase));
      link.phase := phase;
    }

    method SetLogin(link: LinkedServer, phase: Phase, ghost checked: Option<Login>, ghost presented: Option<Login>)
      requires Sound() && link in links
      modifies link`phase, link`checked, link`presented, `state
      ensures Sound()
      ensures state == WithClient(old(state), link.id, old(state).clients[link.id].(phase := phase, checked := checked, presented := presented))
    {
      state := WithClient(state, link.id, state.clients[link.id].(phase := phase, checked := checked, presented := presented));
      link.phase, link.checked, link.presented := phase, checked, presented;
    }

    method DropSocket(link: LinkedServer)
      requires Sound() && link in links
      modifies link`socket, `state
      ensures Sound() && state == WithClient(old(state), link.id, old(state).clients[link.id].(socket := false))
    {
      state := WithClient(state, link.id, state.clients[link.id].(socket := false));
      link.socket := false;
    }

    method SetCredentials(c: Connection, credentials: Login)
      requires Sound() && c in hubs
      modifies c`credentials, `state
      ensures Sound() && state == WithConnection(old(state), c.id, old(state).connections[c.id].(credentials := credentials))
    {
      state := WithConnection(state, c.id, state.connections[c.id].(credentials := credentials));
      c.credentials := credentials;
    }

    method SetIndex(c: Connection, index: nat)
      requires Sound() && c in hubs
      modifies c`serverIndex, `state
      ensures Sound() && state == WithConnection(old(state), c.id, old(state).connections[c.id].(serverIndex := index))
    {
      state := WithConnection(state, c.id, state.connections[c.id].(serverIndex := index));
      c.serverIndex := index;
    }

    method Connect(c: Connection)
      requires Sound() && c in hubs
      modifies c`connecting, `state
      ensures Sound() && state == WithConnection(old(state), c.id, old(state).connections[c.id].(connecting := true))
    {
      state := WithConnection(state, c.id, state.connections[c.id].(connecting := true));
      c.connecting := true;
    }

    method Disconnect(c: Connection)
      requires Sound() && c in hubs
      modifies c`connected, `state
      ensures Sound() && state == WithConnection(old(state), c.id, old(state).connections[c.id].(connected := false))
    {
      state := WithConnection(state, c.id, state.connections[c.id].(connected := false));
      c.connected := false;
    }

    method SetInGame(c: Connection, inGame: bool)
      requires Sound() && c in hubs
      modifies c`inGame, `state
      ensures Sound() && state == WithConnection(old(state), c.id, old(state).connections[c.id].(inGame := inGame))
    {
      state := WithConnection(state, c.id, state.connections[c.id].(inGame := inGame));
      c.inGame := inGame;
    }

    method SetCharList(c: Connection, charList: bool)
      requires Sound() && c in hubs
      modifies c`charList, `state
      ensures Sound() && state == WithConnection(old(state), c.id, old(state).connections[c.id].(charList := charList))
    {
      state := WithConnection(state, c.id, state.connections[c.id].(charList := charList));
      c.charList := charList;
    }

    // ---- Lists ----

    method SetServers(c: Connection, servers: seq<LinkedServer>)
      requires Sound() && c in hubs && forall l :: l in servers ==> l in links
      modifies c`servers, `state
      ensures Sound() && c.servers == servers
      ensures state == WithConnection(old(state), c.id, old(state).connections[c.id].(servers := Names(servers)))
    {
      state := WithConnection(state, c.id, state.connections[c.id].(servers := Names(servers)));
      c.servers := servers;
    }

    method SetConnection(link: LinkedServer, c: Connection?)
      requires Sound() && link in links && (c != null ==> c in hubs)
      modifies link`connection, `state
      ensures Sound() && link.connection == c
      ensures state == WithClient(old(state), link.id, old(state).clients[link.id].(connection := if c == null then None else Some(c.id)))
    {
      state := WithClient(state, link.id, state.clients[link.id].(connection := if c == null then None else Some(c.id)));
      link.connection := c;
    }

    method Remove(link: LinkedServer)
      requires Sound() && link in links && link.connection != null
      modifies link`connection, link.connection`servers, `state
      ensures Sound() && link.connection == null
      ensures Of(old(state), link.id) in old(state).connections && state == Detached(old(state), link.id)
    {
      var c := link.connection;
      NamesUnlinked(c.servers, link);
      SetServers(c, Unlinked(c.servers, link));
      SetConnection(link, null);
    }

    method Add(link: LinkedServer, c: Connection)
      requires Sound() && link in links && link.connection == null && c in hubs
      modifies link`connection, c`servers, `state
      ensures Sound() && link.connection == c && state == Added(old(state), link.id, c.id)
    {
      NamesCons(link, c.servers);
      SetServers(c, [link] + c.servers);
      SetConnection(link, c);
    }

    // ---- Deletion ----

    lemma InList(link: LinkedServer, c: Connection)
      requires Sound() && c in hubs && link in links
      ensures link.id in state.connections[c.id].servers <==> link in c.servers
    {
      if link in c.servers {
        var k :| 0 <= k < |c.servers| && c.servers[k] == link;
        assert Names(c.servers)[k] == link.id;
      }
      if link.id in Names(c.servers) {
        var k :| 0 <= k < |c.servers| && Names(c.servers)[k] == link.id;
        assert c.servers[k] in links;
      }
    }

    /** A client is in the list of the connection that it points at, and in no
        other. */
    lemma BackPointer(link: LinkedServer, c: Connection)
      requires Sound() && Ok(state) && link in links && c in hubs
      ensures link in c.servers <==> link.connection == c
    {
      InList(link, c);
      assert Members(state, c.id) && ClientFits(state, link.id);
    }

    lemma NotListed(link: LinkedServer)
      requires Sound() && Ok(state) && link in links && link.connection == null
      ensures forall c :: c in hubs ==> link !in c.servers
    {
      forall c | c in hubs ensures link !in c.servers {
        BackPointer(link, c);
      }
    }

    method Erase(link: LinkedServer)
      requires Sound() && link in links && forall c :: c in hubs ==> link !in c.servers
      modifies `links, `state
      ensures Sound() && links == old(links) - {link} && state == Deleted(old(state), link.id)
    {
      forall m | m in state.clients - {link.id} ensures HasLink(links - {link}, m) {
        assert HasLink(links, m);
      }
      links, state := links - {link}, Deleted(state, link.id);
    }

    method Delete(link: LinkedServer)
      requires Sound() && Ok(state) && link in links && link.connection == null
      modifies `links, `state
      ensures Sound() && links == old(links) - {link} && state == Deleted(old(state), link.id)
    {
      NotListed(link);
      Erase(link);
    }

    /** What deleting a connection and its clients leaves behind does not point at
        any of them. */
    lemma NoneLeft(c: Connection)
      requires Sound() && Ok(state) && c in hubs
      ensures Distinct(Names(c.servers)) && Distinct(c.servers)
      ensures forall l :: l in links && l !in c.servers ==> l.connection != c && l.id !in Names(c.servers)
      ensures forall d, l :: d in hubs && d != c && l in d.servers ==> l !in c.servers
    {
      assert Members(state, c.id);
      forall i, j | 0 <= i < j < |c.servers| ensures c.servers[i] != c.servers[j] {
        assert Names(c.servers)[i] != Names(c.servers)[j];
      }
      forall l | l in links && l !in c.servers ensures l.connection != c && l.id !in Names(c.servers) {
        BackPointer(l, c);
        InList(l, c);
      }
      forall d, l | d in hubs && d != c && l in d.servers ensures l !in c.servers {
        BackPointer(l, c);
        BackPointer(l, d);
      }
    }

    /** Takes the first client off a connection and deletes it. */
    method DisposeFront(c: Connection)
      requires Sound() && c in hubs && c.servers != [] && c.servers[0] !in c.servers[1..]
      requires forall d :: d in hubs && d != c ==> c.servers[0] !in d.servers
      modifies c`servers, `links, `state
      ensures Sound() && c.servers == old(c.servers)[1..] && links == old(links) - {old(c.servers)[0]}
      ensures state == Deleted(WithConnection(old(state), c.id, old(state).connections[c.id].(servers := Names(c.servers))), old(c.servers)[0].id)
    {
      var l := c.servers[0];
      SetServers(c, c.servers[1..]);
      Erase(l);
    }

    /** Takes a connection off the listener's list. */
    method Unlink(c: Connection)
      requires Sound() && c in hubs && Distinct(state.order)
      modifies `connections, `state
      ensures Sound() && c !in connections && state == old(state).(order := Unlinked(old(state).order, c.id))
    {
      OrderUnlinked(connections, state.order, c);
      forall d | d in Unlinked(connections, c) ensures d in hubs && d != c {
        var k :| 0 <= k < |connections| && connections[k] == d;
      }
      connections, state := Unlinked(connections, c), state.(order := Unlinked(state.order, c.id));
    }

    method EraseConnection(c: Connection)
      requires Sound() && c in hubs && c !in connections && forall l :: l in links ==> l.connection != c
      modifies `hubs, `state
      ensures Sound() && hubs == old(hubs) - {c} && state == old(state).(connections := old(state).connections - {c.id})
    {
      forall d | d in state.connections - {c.id} ensures HasHub(hubs - {c}, d) {
        assert HasHub(hubs, d);
      }
      hubs, state := hubs - {c}, state.(connections := state.connections - {c.id});
    }

    /** Deletes the clients of a connection, one after the other. */
    method DisposeServers(c: Connection)
      requires Sound() && c in hubs && Distinct(c.servers)
      requires forall d, l :: d in hubs && d != c && l in d.servers ==> l !in c.servers
      modifies c`servers, `links, `state
      ensures Sound() && c.servers == [] && forall l :: l in links <==> l in old(links) && l !in old(c.servers)
      ensures state == Shed(old(state), c.id, Names(old(c.servers)), [])
    {
      ghost var servers, k := c.servers, 0;
      ShedNone(state, c.id);
      while c.servers != []
        invariant Sound() && k <= |servers| && c.servers == servers[k..]
        invariant forall l :: l in links <==> l in old(links) && l !in servers[..k]
        invariant state == Shed(old(state), c.id, Names(servers[..k]), Names(servers[k..]))
        decreases |c.servers|
      {
        NamesSplit(servers, k);
        assert servers[k] in servers && servers[k] !in servers[k + 1..] && c.servers[0] == servers[k];
        forall d | d in hubs && d != c ensures servers[k] !in d.servers {
        }
        ShedNext(old(state), c.id, Names(servers[..k]), servers[k].id, Names(servers[k..]), Names(servers[k + 1..]));
        DisposeFront(c);
        k := k + 1;
      }
      assert servers[..k] == servers;
    }

    /** Deletes a connection with its clients. */
    method Destroy(c: Connection)
      requires Sound() && Ok(state) && c in hubs
      modifies c`servers, `links, `hubs, `connections, `state
      ensures Sound() && state == Destroyed(old(state), c.id)
      ensures hubs == old(hubs) - {c} && forall l :: l in links <==> l in old(links) && l !in old(c.servers)
    {
      NoneLeft(c);
      ShedAll(state, c.id, Names(c.servers));
      DisposeServers(c);
      Unlink(c);
      EraseConnection(c);
    }

    // ---- Searches ----

    method FindAttachConnection(credentials: Login) returns (r: Connection?)
      requires Sound()
      ensures r == null <==> FindAttach(state, state.order, credentials) == None
      ensures r != null ==> r in hubs && FindAttach(state, state.order, credentials) == Some(r.id)
    {
      ghost var order := state.order;
      assert order[0..] == order;
      for k := 0 to |connections|
        invariant FindAttach(state, order, credentials) == FindAttach(state, order[k..], credentials)
      {
        var c := connections[k];
        assert order[k..][1..] == order[k + 1..];
        if c.CanAttach() && Same(credentials, c.credentials) {
          return c;
        }
      }
      return null;
    }

    method FindOtherConnection(c: Connection) returns (r: Connection?)
      requires Sound() && c in hubs
      ensures r == null <==> FindOther(state, state.order, c.id) == None
      ensures r != null ==> r in hubs && FindOther(state, state.order, c.id) == Some(r.id)
    {
      ghost var order := state.order;
      assert order[0..] == order;
      for k := 0 to |connections|
        invariant FindOther(state, order, c.id) == FindOther(state, order[k..], c.id)
      {
        var d := connections[k];
        assert order[k..][1..] == order[k + 1..];
        if d != c && d.CanAttach() && Same(c.credentials, d.credentials) && c.serverIndex == d.serverIndex {
          return d;
        }
      }
      return null;
    }

    /** The search of one connection. */
    method FindZombieIn(c: Connection, credentials: Login, authId: nat) returns (r: LinkedServer?)
      requires Sound() && c in hubs
      ensures var found := if Same(credentials, state.connections[c.id].credentials)
                           then FindZombieOf(state, state.connections[c.id].servers, authId) else None;
              (r == null <==> found == None) && (r != null ==> r in links && found == Some(r.id))
    {
      if !Same(credentials, c.credentials) {
        return null;
      }
      ghost var names := state.connections[c.id].servers;
      assert names[0..] == names;
      for k := 0 to |c.servers|
        invariant FindZombieOf(state, names, authId) == FindZombieOf(state, names[k..], authId)
      {
        assert names[k..][1..] == names[k + 1..];
        var l := c.servers[k];
        assert l in links;
        if l.phase == RELAY_SERVER && !l.socket && l.authId == authId {
          return l;
        }
      }
      return null;
    }

    method FindZombieClient(credentials: Login, authId: nat) returns (r: LinkedServer?)
      requires Sound()
      ensures r == null <==> FindZombie(state, state.order, credentials, authId) == None
      ensures r != null ==> r in links && FindZombie(state, state.order, credentials, authId) == Some(r.id)
    {
      ghost var order := state.order;
      assert order[0..] == order;
      for k := 0 to |connections|
        invariant FindZombie(state, order, credentials, authId) == FindZombie(state, order[k..], credentials, authId)
      {
        assert order[k..][1..] == order[k + 1..];
        r := FindZombieIn(connections[k], credentials, authId);
        if r != null {
          return;
        }
      }
      return null;
    }
    // ---- Leaving ----

    /** Deletes a client that is on no connection, and perhaps the one that it has
        left. */
    method Depart(link: LinkedServer, c: Connection, keep: bool)
      requires Sound() && Ok(state) && link in links && link.connection == null && c in hubs
      modifies `links, `hubs, `connections, `state, repr
      ensures Sound() && state == Orphaned(old(state), link.id, c.id, keep)
    {
      if c.servers == [] && !keep {
        OkDestroyed(state, c.id);
        Destroy(c);
      }
      Delete(link);
    }

    method Leave(link: LinkedServer, keep: bool)
      requires Sound() && Valid(state) && link in links
      modifies `links, `hubs, `connections, `state, repr
      ensures Sound() && Of(old(state), link.id) in old(state).connections
      ensures state == Orphaned(Detached(old(state), link.id), link.id, Of(old(state), link.id), keep)
    {
      OkDetached(state, link.id);
      var c := link.connection;
      Remove(link);
      Depart(link, c, keep);
    }

    /** A packet handler has refused the client. */
    method Kick(link: LinkedServer)
      requires Sound() && Valid(state) && link in links
      modifies `links, `hubs, `connections, `state, repr
      ensures Sound()
      ensures Of(old(state), link.id) in old(state).connections && state == Kicked(old(state), link.id)
    {
      Leave(link, config.background);
    }

    method RemoveCheckEmpty(link: LinkedServer)
      requires Sound() && Valid(state) && link in links
      modifies `links, `hubs, `connections, `state, repr
      ensures Sound()
      ensures Of(old(state), link.id) in old(state).connections && state == Gone(old(state), link.id)
    {
      ValidHome(state, link.id);
      var c := link.connection;
      Leave(link, config.background && c.connected && c.inGame);
    }

    // ---- Packets from a client ----

    method HandleAccountLogin(link: LinkedServer, credentials: Login)
      requires Sound() && Valid(state) && link in links
      modifies `links, `hubs, `connections, `state, repr
      ensures Sound()
      ensures Of(old(state), link.id) in old(state).connections && state == AccountLogin(old(state), link.id, credentials)
    {
      ValidHome(state, link.id);
      var c := link.connection;
      if link.phase != INIT || c.connected {
        Kick(link);
        return;
      }
      ValidIdentified(state, link.id, credentials);
      Identify(link, c, credentials);
      AnswerLogin(link, c, credentials);
    }

    method Identify(link: LinkedServer, c: Connection, credentials: Login)
      requires Sound() && link in links && link.connection == c && c in hubs
      modifies link`phase, link`checked, link`presented, c`credentials, `state
      ensures Sound() && Of(old(state), link.id) in old(state).connections && state == Identified(old(state), link.id, credentials)
    {
      SetLogin(link, ACCOUNT_LOGIN, Some(credentials), Some(credentials));
      SetCredentials(c, credentials);
    }

    method AnswerLogin(link: LinkedServer, c: Connection, credentials: Login)
      requires Sound() && Valid(state) && link in links && link.connection == c && c in hubs
      modifies `links, `hubs, `connections, `state, repr
      ensures Sound()
      ensures Of(old(state), link.id) in old(state).connections && state == Answered(old(state), link.id, credentials)
    {
      var other := FindAttachConnection(credentials);
      if other != null {
        SetPhase(link, SERVER_LIST);
      } else if config.gameServers > 0 {
        return;
      } else if config.loginAddress {
        Connect(c);
      } else {
        Kick(link);
      }
    }

    /** After the game login, the client gets what the connection knows. */
    method Enter(link: LinkedServer)
      requires Sound() && link in links && link.connection != null
      modifies link, `state
      ensures Sound() && Of(old(state), link.id) in old(state).connections && state == Entered(old(state), link.id)
    {
      var c := link.connection;
      if c.inGame {
        SetPhase(link, IN_GAME);
      } else if c.charList {
        SetPhase(link, CHAR_LIST);
      }
    }

    method HandleGameLogin(link: LinkedServer, credentials: Login, authId: nat)
      requires Sound() && Valid(state) && link in links
      modifies `links, `hubs, `connections, `state, repr
      ensures Sound()
      ensures Of(old(state), link.id) in old(state).connections && state == GameLogin(old(state), link.id, credentials, authId)
    {
      ValidHome(state, link.id);
      if !config.razorWorkaround {
        Kick(link);
      } else if link.phase == RELAY_SERVER {
        SetLogin(link, GAME_LOGIN, link.checked, Some(credentials));
        Enter(link);
      } else if link.phase != INIT {
        Kick(link);
      } else {
        ComeBack(link, credentials, authId);
      }
    }

    /** A new client that was told to reconnect looks for its placeholder. */
    method ComeBack(link: LinkedServer, credentials: Login, authId: nat)
      requires Sound() && Valid(state) && link in links && link.phase == INIT
      modifies `links, `hubs, `connections, `state, repr
      ensures Sound()
      ensures Of(old(state), link.id) in old(state).connections
      ensures match FindZombie(old(state), old(state).order, credentials, authId)
              case None => state == Kicked(old(state), link.id)
              case Some(zombie) => zombie in old(state).clients && state == Replaced(old(state), link.id, zombie, credentials)
    {
      ValidHome(state, link.id);
      var zombie := FindZombieClient(credentials, authId);
      if zombie == null {
        Kick(link);
      } else {
        MeetZombie(link, zombie, credentials, authId);
      }
    }

    method MeetZombie(link: LinkedServer, zombie: LinkedServer, credentials: Login, authId: nat)
      requires Sound() && Valid(state) && link in links && link.phase == INIT
      requires zombie in links && FindZombie(state, state.order, credentials, authId) == Some(zombie.id)
      modifies `links, `hubs, `connections, `state, repr
      ensures Sound()
      ensures Of(old(state), link.id) in old(state).connections && state == Replaced(old(state), link.id, zombie.id, credentials)
    {
      ZombieConnection(state, credentials, authId);
      TakePlace(link, zombie, credentials);
    }

    /** Deletes a connection without clients, and nobody else. */
    method DestroyUnused(c: Connection)
      requires Sound() && Ok(state) && c in hubs && c.servers == []
      modifies c`servers, `links, `hubs, `connections, `state
      ensures Sound() && links == old(links) && hubs == old(hubs) - {c} && state == Destroyed(old(state), c.id)
    {
      Destroy(c);
    }

    /** Takes a client off a connection that it has for itself, and deletes that. */
    method Abandon(link: LinkedServer)
      requires Sound() && Ok(state) && link in links && link.connection != null
      requires state.connections[link.connection.id].servers == [link.id]
      modifies `links, `hubs, `connections, `state, repr
      ensures Sound() && links == old(links) && hubs == old(hubs) - {old(link.connection)} && link.connection == null
      ensures Of(old(state), link.id) in old(state).connections
      ensures state == Destroyed(Detached(old(state), link.id), Of(old(state), link.id))
    {
      var c := link.connection;
      OkDetached(state, link.id);
      Remove(link);
      DestroyUnused(c);
    }

    method Arrive(link: LinkedServer, d: Connection, phase: Phase, ghost checked: Option<Login>, ghost presented: Option<Login>)
      requires Sound() && link in links && link.connection == null && d in hubs
      modifies link, d, `state
      ensures Sound()
      ensures var client := old(state).clients[link.id].(phase := phase, checked := checked, presented := presented);
              state == Added(WithClient(old(state), link.id, client), link.id, d.id)
    {
      SetLogin(link, phase, checked, presented);
      Add(link, d);
    }

    /** Moves a client to another connection and deletes its own. */
    method Move(link: LinkedServer, d: Connection, phase: Phase, ghost checked: Option<Login>, ghost presented: Option<Login>)
      requires Sound() && Ok(state) && link in links && d in hubs && CanMove(state, link.id, d.id)
      modifies `links, `hubs, `connections, `state, repr
      ensures Sound() && links == old(links)
      ensures state == Moved(old(state), link.id, d.id,
                             old(state).clients[link.id].(phase := phase, checked := checked, presented := presented))
    {
      ghost var p := state;
      Abandon(link);
      ghost var p1 := state;
      Arrive(link, d, phase, checked, presented);
      MoveIs(p, p1, state, link.id, d.id, phase, checked, presented);
    }

    /** The client joins the placeholder on its connection. */
    method TakeOver(link: LinkedServer, zombie: LinkedServer, credentials: Login)
      requires Sound() && Valid(state) && link in links && link.phase == INIT
      requires zombie in links && zombie.phase == RELAY_SERVER
      requires Of(state, zombie.id) in state.connections && Same(credentials, state.connections[Of(state, zombie.id)].credentials)
      modifies `links, `hubs, `connections, `state, repr
      ensures Sound() && Valid(state) && links == old(links) && link != zombie
      ensures Of(old(state), link.id) in old(state).connections && state == TakenOver(old(state), link.id, zombie.id, credentials)
    {
      CanReplace(state, link.id, zombie.id);
      ValidTakenOver(state, link.id, zombie.id, credentials);
      Move(link, zombie.connection, GAME_LOGIN, Some(credentials), Some(credentials));
    }

    method TakePlace(link: LinkedServer, zombie: LinkedServer, credentials: Login)
      requires Sound() && Valid(state) && link in links && link.phase == INIT
      requires zombie in links && zombie.phase == RELAY_SERVER
      requires Of(state, zombie.id) in state.connections && Same(credentials, state.connections[Of(state, zombie.id)].credentials)
      modifies `links, `hubs, `connections, `state, repr
      ensures Sound()
      ensures Of(old(state), link.id) in old(state).connections && state == Replaced(old(state), link.id, zombie.id, credentials)
    {
      TakeOver(link, zombie, credentials);
      Succeed(link, zombie);
    }

    /** The placeholder goes, and the client that has come for it enters. */
    method Succeed(link: LinkedServer, zombie: LinkedServer)
      requires Sound() && Valid(state) && link in links && zombie in links && link != zombie
      modifies `links, `hubs, `connections, `state, repr
      ensures Sound()
      ensures Of(old(state), zombie.id) in old(state).connections
      ensures var p := Deleted(Detached(old(state), zombie.id), zombie.id);
              && link.id in p.clients && p.clients[link.id].connection != None && Of(p, link.id) in p.connections
              && state == Entered(p, link.id)
    {
      ghost var p1 := state;
      Reap(zombie);
      ReapedKeeps(p1, state, link.id, zombie.id);
      ValidHome(state, link.id);
      Enter(link);
    }

    /** Deletes the placeholder. */
    method Reap(zombie: LinkedServer)
      requires Sound() && Valid(state) && zombie in links
      modifies `links, `hubs, `connections, `state, repr
      ensures Sound() && links == old(links) - {zombie} && hubs == old(hubs)
      ensures Of(old(state), zombie.id) in old(state).connections
      ensures state == Deleted(Detached(old(state), zombie.id), zombie.id)
      ensures Valid(state) && state.clients == old(state).clients - {zombie.id}
    {
      ValidReaped(state, zombie.id);
      OkDetached(state, zombie.id);
      Remove(zombie);
      Delete(zombie);
    }

    method HandlePlayCharacter(link: LinkedServer)
      requires Sound() && Valid(state) && link in links
      modifies `links, `hubs, `connections, `state, repr
      ensures Sound()
      ensures Of(old(state), link.id) in old(state).connections && state == PlayCharacter(old(state), link.id)
    {
      ValidHome(state, link.id);
      if link.phase == CHAR_LIST {
        SetPhase(link, PLAY_CHAR);
      } else {
        Kick(link);
      }
    }

    method RedirectToSelf(link: LinkedServer, ipv4: bool, authId: nat)
      requires Sound() && link in links
      modifies link`phase, link`authId, `state
      ensures Sound() && state == Redirected(old(state), link.id, ipv4, authId)
    {
      if config.razorWorkaround && ipv4 {
        state := Redirected(state, link.id, ipv4, authId);
        link.phase, link.authId := RELAY_SERVER, authId;
      }
    }

    method HandlePlayServer(link: LinkedServer, index: nat, ipv4: bool, authId: nat)
      requires Sound() && Valid(state) && link in links
      modifies `links, `hubs, `connections, `state, repr
      ensures Sound()
      ensures Of(old(state), link.id) in old(state).connections && state == PlayServer(old(state), link.id, index, ipv4, authId)
    {
      ValidHome(state, link.id);
      if link.phase != SERVER_LIST {
        Kick(link);
        return;
      }
      var c := link.connection;
      ValidChosen(state, link.id, index);
      Choose(link, c, index);
      Place(link, c, index, ipv4, authId);
    }

    method Choose(link: LinkedServer, c: Connection, index: nat)
      requires Sound() && link in links && link.connection == c && c in hubs
      modifies link`phase, c`serverIndex, `state
      ensures Sound() && Of(old(state), link.id) in old(state).connections && state == Chosen(old(state), link.id, index)
    {
      SetPhase(link, PLAY_SERVER);
      SetIndex(c, index);
    }

    method Place(link: LinkedServer, c: Connection, index: nat, ipv4: bool, authId: nat)
      requires Sound() && Valid(state) && link in links && link.phase == PLAY_SERVER && link.connection == c && c in hubs
      requires state.connections[c.id].servers == [link.id]
      modifies `links, `hubs, `connections, `state, repr
      ensures Sound()
      ensures Of(old(state), link.id) in old(state).connections && state == Placed(old(state), link.id, index, ipv4, authId)
    {
      var other := FindOtherConnection(c);
      if other != null {
        Attach(link, c, other, ipv4, authId);
      } else {
        Stay(link, c, index, ipv4, authId);
      }
    }

    /** The client goes on with its own connection. */
    method Stay(link: LinkedServer, c: Connection, index: nat, ipv4: bool, authId: nat)
      requires Sound() && Valid(state) && link in links && link.connection == c && c in hubs
      requires FindOther(state, state.order, c.id) == None
      modifies `links, `hubs, `connections, `state, repr
      ensures Sound()
      ensures Of(old(state), link.id) in old(state).connections && state == Placed(old(state), link.id, index, ipv4, authId)
    {
      if !config.loginAddress && config.gameServers > 0 {
        if index >= config.gameServers {
          Kick(link);
        } else {
          Connect(c);
          RedirectToSelf(link, ipv4, authId);
        }
      } else {
        RedirectToSelf(link, ipv4, authId);
      }
    }

    method Attach(link: LinkedServer, c: Connection, d: Connection, ipv4: bool, authId: nat)
      requires Sound() && Valid(state) && link in links && link.phase == PLAY_SERVER && link.connection == c && c in hubs
      requires d in hubs && state.connections[c.id].servers == [link.id] && IsOther(state, d.id, c.id)
      modifies `links, `hubs, `connections, `state, repr
      ensures Sound() && Of(old(state), link.id) in old(state).connections
      ensures var p1 := Moved(old(state), link.id, d.id, old(state).clients[link.id]);
              && link.id in p1.clients
              && state == if config.razorWorkaround then Redirected(p1, link.id, ipv4, authId)
                          else WithClient(p1, link.id, p1.clients[link.id].(phase := IN_GAME))
    {
      CanAttachTo(state, link.id, d.id);
      Move(link, d, PLAY_SERVER, link.checked, link.presented);
      if config.razorWorkaround {
        RedirectToSelf(link, ipv4, authId);
      } else {
        SetPhase(link, IN_GAME);
      }
    }

    // ---- Packets from the game server ----

    method PromoteOne(link: LinkedServer, ghost p: Proxy, ghost done: seq<nat>, from: set<Phase>, to: Phase)
      requires Sound() && link in links && link.id in p.clients && link.id !in done
      requires state == p.(clients := PromotedClients(p.clients, done, from, to))
      modifies link`phase, `state
      ensures Sound() && state == p.(clients := PromotedClients(p.clients, done + [link.id], from, to))
    {
      PromoteSnoc(p.clients, done, link.id, from, to);
      if link.phase in from {
        SetPhase(link, to);
      }
    }

    /** Sets the phase of some clients of a connection, one after the other. */
    method Promote(c: Connection, from: set<Phase>, to: Phase)
      requires Sound() && Ok(state) && c in hubs
      modifies `state, repr
      ensures Sound() && state == Promoted(old(state), c.id, from, to)
    {
      NoneLeft(c);
      PromoteNone(state.clients, from, to);
      PromoteEach(c, from, to);
    }

    method PromoteEach(c: Connection, from: set<Phase>, to: Phase)
      requires Sound() && c in hubs && Distinct(Names(c.servers)) && state == state.(clients := PromotedClients(state.clients, [], from, to))
      modifies `state, repr
      ensures Sound() && state == Promoted(old(state), c.id, from, to)
    {
      ghost var p, servers := state, c.servers;
      for k := 0 to |c.servers|
        invariant Sound() && c.servers == servers
        invariant state == p.(clients := PromotedClients(p.clients, Names(servers[..k]), from, to))
      {
        NamesSplit(servers, k);
        PromoteOne(c.servers[k], p, Names(servers[..k]), from, to);
      }
      assert servers[..|servers|] == servers;
    }

    method HandleStart(c: Connection, hasSerial: bool)
      requires Sound() && Valid(state) && c in hubs
      modifies `state, repr
      ensures Sound() && state == OnStart(old(state), c.id, hasSerial)
    {
      Promote(c, ANY_PHASE, IN_GAME);
      SetInGame(c, hasSerial);
    }

    method HandleCharList(c: Connection, saved: bool, reconnecting: bool)
      requires Sound() && Valid(state) && c in hubs
      modifies `state, repr
      ensures Sound() && state == OnCharList(old(state), c.id, saved, reconnecting)
    {
      ValidCharListSaved(state, c.id, c.charList || saved);
      SetCharList(c, c.charList || saved);
      if !reconnecting {
        Promote(c, {GAME_LOGIN, PLAY_SERVER}, CHAR_LIST);
      }
    }

    method DropServer(c: Connection)
      requires Sound() && Valid(state) && c in hubs
      modifies `links, `hubs, `connections, `state, repr
      ensures Sound() && state == ServerGone(old(state), c.id)
    {
      if config.autoreconnect && c.inGame {
        Disconnect(c);
      } else {
        Destroy(c);
      }
    }

    method HandleServerList(c: Connection, wellFormed: bool, ordered: bool, reconnecting: bool)
      requires Sound() && Valid(state) && c in hubs
      modifies `links, `hubs, `connections, `state, repr
      ensures Sound()
      ensures state == OnServerList(old(state), c.id, wellFormed, ordered, reconnecting)
    {
      if !wellFormed {
        DropServer(c);
      } else if reconnecting {
        return;
      } else if !ordered {
        DropServer(c);
      } else {
        Promote(c, {ACCOUNT_LOGIN}, SERVER_LIST);
      }
    }

    // ---- Sockets ----

    method Register(link: LinkedServer)
      requires Sound() && link in repr && link !in links && link.id !in state.clients && link.connection == null
      modifies `links, `state
      ensures Sound() && links == old(links) + {link} && state == WithClient(old(state), link.id, link.Value())
    {
      assert forall l :: l in links ==> l.id != link.id;
      forall m | m in state.clients || m == link.id ensures HasLink(links + {link}, m) {
        assert m in state.clients ==> HasLink(links, m);
      }
      links, state := links + {link}, WithClient(state, link.id, link.Value());
    }

    method RegisterConnection(c: Connection)
      requires Sound() && c in repr && c !in hubs && c.id !in state.connections && c.servers == []
      modifies `hubs, `state
      ensures Sound() && hubs == old(hubs) + {c} && state == WithConnection(old(state), c.id, c.Value())
    {
      assert forall d :: d in hubs ==> d.id != c.id;
      forall d | d in state.connections || d == c.id ensures HasHub(hubs + {c}, d) {
        assert d in state.connections ==> HasHub(hubs, d);
      }
      hubs, state := hubs + {c}, WithConnection(state, c.id, c.Value());
    }

    method Widen(link: LinkedServer, c: Connection)
      requires Sound()
      modifies `repr, `state
      ensures Sound() && repr == old(repr) + {link, c} && state == old(state).(nextId := old(state).nextId + 2)
    {
      repr, state := repr + {link, c}, state.(nextId := state.nextId + 2);
    }

    /** Puts a connection at the front of the listener's list. */
    method Enlist(c: Connection)
      requires Sound() && c in hubs
      modifies `connections, `state
      ensures Sound() && state == old(state).(order := [c.id] + old(state).order)
    {
      connections, state := [c] + connections, state.(order := [c.id] + state.order);
    }

    /** Puts a new client on a new connection. */
    method Welcome(link: LinkedServer, c: Connection)
      requires Sound() && link in repr && link !in links && link.id !in state.clients && link.connection == null
      requires c in repr && c !in hubs && c.id !in state.connections && c.servers == []
      modifies `links, `hubs, `connections, `state, link, c
      ensures Sound()
      ensures state == Welcomed(old(state), link.id, old(link.Value()), c.id, old(c.Value()))
    {
      Register(link);
      RegisterConnection(c);
      Add(link, c);
      Enlist(c);
    }

    method OnAccept() returns (link: LinkedServer, c: Connection)
      requires Sound() && Valid(state)
      modifies `links, `hubs, `connections, `repr, `state
      ensures Sound() && fresh(link) && fresh(c) && repr == old(repr) + {link, c} && state == Accepted(old(state))
    {
      link := new LinkedServer(state.nextId);
      c := new Connection(state.nextId + 1);
      Introduce(link, c);
    }

    method Introduce(link: LinkedServer, c: Connection)
      requires Sound() && Ok(state) && link !in links && c !in hubs && link.connection == null && c.servers == []
      requires link.id == state.nextId && link.Value() == NEW_CLIENT && c.id == state.nextId + 1 && c.Value() == UNUSED
      modifies `links, `hubs, `connections, `repr, `state, link, c
      ensures Sound() && repr == old(repr) + {link, c} && state == Accepted(old(state))
    {
      ghost var p := state;
      NewNumbers(p);
      Widen(link, c);
      Welcome(link, c);
      AcceptedIs(p, state, link.id, c.id);
    }

    method HandleDisconnect(link: LinkedServer)
      requires Sound() && Valid(state) && link in links
      modifies `links, `hubs, `connections, `state, repr
      ensures Sound()
      ensures Of(old(state), link.id) in old(state).connections && state == OnDisconnect(old(state), link.id)
    {
      ValidHome(state, link.id);
      if link.phase == RELAY_SERVER {
        DropSocket(link);
      } else {
        RemoveCheckEmpty(link);
      }
    }
  }

  /** A client and a connection are new, and the client is on the connection. */
  ghost function Welcomed(p: Proxy, m: nat, client: Client, c: nat, connection: Session.Connection): Proxy {
    var p1 := Added(WithConnection(WithClient(p, m, client), c, connection), m, c);
    p1.(order := [c] + p1.order)
  }

  lemma NewNumbers(p: Proxy)
    requires Ok(p)
    ensures p.nextId !in p.clients && p.nextId + 1 !in p.connections
  {
  }

  lemma AcceptedIs(p: Proxy, p': Proxy, m: nat, c: nat)
    requires m == p.nextId && c == p.nextId + 1 && p' == Welcomed(p.(nextId := p.nextId + 2), m, NEW_CLIENT, c, UNUSED)
    ensures p' == Accepted(p)
  {
    assert [m] + [] == [m];
  }

  lemma MoveIs(p: Proxy, p1: Proxy, p2: Proxy, m: nat, d: nat, phase: Phase, checked: Option<Login>, presented: Option<Login>)
    requires CanMove(p, m, d) && p1 == Destroyed(Detached(p, m), Of(p, m)) && m in p1.clients && d in p1.connections
    requires p2 == Added(WithClient(p1, m, p1.clients[m].(phase := phase, checked := checked, presented := presented)), m, d)
    ensures p2 == Moved(p, m, d, p.clients[m].(phase := phase, checked := checked, presented := presented))
  {
  }

  lemma PromoteNone(clients: map<nat, Client>, from: set<Phase>, to: Phase)
    ensures PromotedClients(clients, [], from, to) == clients
  {
  }

  lemma PromoteSnoc(clients: map<nat, Client>, done: seq<nat>, m: nat, from: set<Phase>, to: Phase)
    requires m in clients && m !in done
    ensures var x := PromotedClients(clients, done, from, to);
            && m in x && x[m] == clients[m]
            && PromotedClients(clients, done + [m], from, to) ==
               if clients[m].phase in from then x[m := WithPhase(clients[m], to)] else x
  {
  }

  lemma {:induction false} OrderUnlinked(connections: seq<Connection>, order: seq<nat>, c: Connection)
    requires |connections| == |order| && forall k :: 0 <= k < |order| ==> connections[k].id == order[k]
    requires Distinct(order) && forall d :: d in connections && d.id == c.id ==> d == c
    ensures |Unlinked(connections, c)| == |Unlinked(order, c.id)|
    ensures forall k :: 0 <= k < |Unlinked(order, c.id)| ==> Unlinked(connections, c)[k].id == Unlinked(order, c.id)[k]
    ensures forall d :: d in Unlinked(connections, c) ==> d in connections && d != c
  {
    if connections != [] {
      OrderUnlinked(connections[1..], order[1..], c);
    }
  }
}
