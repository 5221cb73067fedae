/** Login sessions: clients, the connections they share, and how a client moves
    from one connection to another (src/CHandler.cxx, src/SHandler.cxx,
    src/CServer.cxx, src/Listener.cxx). Objects are named by numbers. */
module Session {
  import opened Bits
  import opened Seqs
  import opened Wrappers

  datatype Phase =
    INIT | ACCOUNT_LOGIN | SERVER_LIST | PLAY_SERVER | RELAY_SERVER | GAME_LOGIN | CHAR_LIST | PLAY_CHAR | IN_GAME

  function Rank(p: Phase): nat {
    match p
    case INIT => 0
    case ACCOUNT_LOGIN => 1
    case SERVER_LIST => 2
    case PLAY_SERVER => 3
    case RELAY_SERVER => 4
    case GAME_LOGIN => 5
    case CHAR_LIST => 6
    case PLAY_CHAR => 7
    case IN_GAME => 8
  }

  // ---- Credentials ----

  /** Two buffers of 30 bytes. */
  datatype Credentials = Credentials(username: seq<Byte>, password: seq<Byte>)

  /** strncmp() of two buffers yields zero. */
  predicate SameText(a: seq<Byte>, b: seq<Byte>) {
    if a == [] || b == [] then a == b
    else a[0] == b[0] && (a[0] == 0 || SameText(a[1..], b[1..]))
  }

  predicate Same(a: Credentials, b: Credentials) {
    SameText(a.username, b.username) && SameText(a.password, b.password)
  }

  /** The text in a buffer, which ends at the first zero. */
  function Text(a: seq<Byte>): seq<Byte> {
    if a == [] || a[0] == 0 then [] else [a[0]] + Text(a[1..])
  }

  /** The text is what comes before the first zero, or all. */
  lemma {:induction false} TextIs(a: seq<Byte>, k: nat)
    requires k <= |a| && (forall i :: 0 <= i < k ==> a[i] != 0) && (k < |a| ==> a[k] == 0)
    ensures Text(a) == a[..k]
  {
    if k > 0 {
      TextIs(a[1..], k - 1);
      assert a[..k] == [a[0]] + a[1..][..k - 1];
    }
  }

  /** For buffers of the same size this is equality of the texts, so it is an
      equivalence. */
  lemma {:induction false} SameTextMeans(a: seq<Byte>, b: seq<Byte>)
    requires |a| == |b|
    ensures SameText(a, b) <==> Text(a) == Text(b)
  {
    if a != [] && a[0] == b[0] && a[0] != 0 {
      SameTextMeans(a[1..], b[1..]);
      assert Text(a)[1..] == Text(a[1..]) && Text(b)[1..] == Text(b[1..]);
    }
  }

  type Login = c: Credentials | |c.username| == 30 && |c.password| == 30
    witness Credentials(Blank(30), Blank(30))

  function Blank(n: nat): (r: seq<Byte>)
    ensures |r| == n
  {
    if n == 0 then [] else [0] + Blank(n - 1)
  }

  /** Both the name and the password must agree. */
  lemma SameMeans(a: Login, b: Login)
    ensures Same(a, b) <==> Text(a.username) == Text(b.username) && Text(a.password) == Text(b.password)
  {
    SameTextMeans(a.username, b.username);
    SameTextMeans(a.password, b.password);
  }

  lemma SameIsEquivalence(a: Login, b: Login, c: Login)
    ensures Same(a, a) && (Same(a, b) <==> Same(b, a))
    ensures Same(a, b) && Same(b, c) ==> Same(a, c)
  {
    SameMeans(a, a);
    SameMeans(a, b);
    SameMeans(b, a);
    SameMeans(b, c);
    SameMeans(a, c);
  }

  // ---- State ----

  /** A client of the proxy. A client without a socket is the placeholder of one
      that was redirected. The credentials are those with which it was let onto its
      connection, and those that it has presented last. */
  datatype Client = Client(
    connection: Option<nat>, phase: Phase, socket: bool, authId: nat,
    checked: Option<Login>, presented: Option<Login>)

  datatype Connection = Connection(
    servers: seq<nat>, credentials: Login, serverIndex: nat,
    connecting: bool, connected: bool, inGame: bool, charList: bool)
  {
    predicate CanAttach() {
      inGame && charList
    }
  }

  datatype Config = Config(razorWorkaround: bool, gameServers: nat, loginAddress: bool, background: bool, autoreconnect: bool)

  /** All clients and connections; the listener's list holds the newest connection
      first. */
  datatype Proxy = Proxy(
    config: Config, clients: map<nat, Client>, connections: map<nat, Connection>, order: seq<nat>,
    nextId: nat)

  const NO_LOGIN: Login := Credentials(Blank(30), Blank(30))

  function Initial(config: Config): Proxy {
    Proxy(config, map[], map[], [], 0)
  }

  // ---- What every state satisfies ----

  /** The program emulates a login server. */
  predicate Emulates(config: Config) {
    config.gameServers > 0
  }

  /** What is known about client m on its connection: before it has chosen a game
      server it is alone there, and the player is not in the game; it was let in
      with the connection's credentials; it has a socket unless it was
      redirected; before its login, the connection is unused. */
  ghost predicate Fits(config: Config, m: nat, client: Client, c: Connection) {
    && m in c.servers
    && (Rank(client.phase) < Rank(PLAY_SERVER) ==> c.servers == [m] && !c.inGame)
    && (client.phase != INIT ==> client.checked != None)
    && (client.checked != None ==> Same(client.checked.value, c.credentials))
    && (client.presented != None ==> client.checked != None)
    && (!client.socket ==> client.phase == RELAY_SERVER || client.phase == IN_GAME)
    && (client.phase == INIT || (Emulates(config) && Rank(client.phase) < Rank(PLAY_SERVER)) ==>
          !c.connected && !c.connecting)
  }

  ghost predicate ClientFits(p: Proxy, m: nat)
    requires m in p.clients
  {
    p.clients[m].connection != None ==>
      && p.clients[m].connection.value in p.connections
      && Fits(p.config, m, p.clients[m], p.connections[p.clients[m].connection.value])
  }

  /** The members of a connection point back at it. */
  ghost predicate Members(p: Proxy, c: nat)
    requires c in p.connections
  {
    && Distinct(p.connections[c].servers)
    && (forall m :: m in p.connections[c].servers ==> m in p.clients && p.clients[m].connection == Some(c))
  }

  ghost predicate Ok(p: Proxy) {
    && (forall m {:trigger ClientFits(p, m)} :: m in p.clients ==> ClientFits(p, m))
    && (forall c {:trigger Members(p, c)} :: c in p.connections ==> Members(p, c))
    && (forall m :: m in p.clients ==> m < p.nextId) && (forall c :: c in p.connections ==> c < p.nextId)
    && Distinct(p.order) && (forall c :: c in p.order <==> c in p.connections)
  }

  /** Between events, every client is on a connection. */
  ghost predicate Valid(p: Proxy) {
    Ok(p) && forall m :: m in p.clients ==> p.clients[m].connection != None
  }

  /** The connection of a client that has one. */
  function Of(p: Proxy, m: nat): nat
    requires m in p.clients && p.clients[m].connection != None
  {
    p.clients[m].connection.value
  }

  // ---- Building blocks ----

  function WithClient(p: Proxy, m: nat, client: Client): Proxy {
    p.(clients := p.clients[m := client])
  }

  function WithConnection(p: Proxy, c: nat, connection: Connection): Proxy {
    p.(connections := p.connections[c := connection])
  }

  /** Takes a client off its connection. */
  function Detached(p: Proxy, m: nat): Proxy
    requires m in p.clients && p.clients[m].connection != None && Of(p, m) in p.connections
  {
    var c := Of(p, m);
    WithClient(WithConnection(p, c, p.connections[c].(servers := Unlinked(p.connections[c].servers, m))),
               m, p.clients[m].(connection := None))
  }

  /** Deletes a connection and the clients on it. */
  function Destroyed(p: Proxy, c: nat): Proxy
    requires c in p.connections
  {
    p.(clients := map m | m in p.clients && m !in p.connections[c].servers :: p.clients[m],
       connections := p.connections - {c},
       order := Unlinked(p.order, c))
  }

  /** Puts a client on a connection. */
  function Added(p: Proxy, m: nat, c: nat): Proxy
    requires m in p.clients && c in p.connections
  {
    WithClient(WithConnection(p, c, p.connections[c].(servers := [m] + p.connections[c].servers)),
               m, p.clients[m].(connection := Some(c)))
  }

  function Deleted(p: Proxy, m: nat): Proxy {
    p.(clients := p.clients - {m})
  }

  lemma OkWithClient(p: Proxy, m: nat, client: Client)
    requires Ok(p) && m in p.clients && client.connection == p.clients[m].connection
    requires client.connection != None ==>
               client.connection.value in p.connections && Fits(p.config, m, client, p.connections[client.connection.value])
    ensures Ok(WithClient(p, m, client))
  {
    var p' := WithClient(p, m, client);
    forall k | k in p'.clients ensures ClientFits(p', k) {
      assert ClientFits(p, k);
    }
    forall c | c in p'.connections ensures Members(p', c) {
      assert Members(p, c);
    }
  }

  lemma OkWithConnection(p: Proxy, c: nat, connection: Connection)
    requires Ok(p) && c in p.connections && connection.servers == p.connections[c].servers
    requires forall m :: m in connection.servers ==> m in p.clients && Fits(p.config, m, p.clients[m], connection)
    ensures Ok(WithConnection(p, c, connection))
  {
    var p' := WithConnection(p, c, connection);
    forall k | k in p'.clients ensures ClientFits(p', k) {
      assert ClientFits(p, k);
    }
    forall d | d in p'.connections ensures Members(p', d) {
      assert Members(p, d);
    }
  }

  lemma OkDetached(p: Proxy, m: nat)
    requires Ok(p) && m in p.clients && p.clients[m].connection != None
    ensures Of(p, m) in p.connections && Ok(Detached(p, m))
    ensures m !in Detached(p, m).connections[Of(p, m)].servers
    ensures p.connections[Of(p, m)].servers == [m] ==> Detached(p, m).connections[Of(p, m)].servers == []
  {
    assert ClientFits(p, m);
    var c := Of(p, m);
    assert Members(p, c);
    var p' := Detached(p, m);
    UnlinkedOf(p.connections[c].servers, m);
    forall k | k in p'.clients ensures ClientFits(p', k) {
      assert ClientFits(p, k);
    }
    forall d | d in p'.connections ensures Members(p', d) {
      assert Members(p, d);
    }
  }

  lemma OkDestroyed(p: Proxy, c: nat)
    requires Ok(p) && c in p.connections
    ensures Ok(Destroyed(p, c))
  {
    var p' := Destroyed(p, c);
    UnlinkedOf(p.order, c);
    assert Members(p, c);
    forall k | k in p'.clients ensures ClientFits(p', k) {
      assert ClientFits(p, k);
    }
    forall d | d in p'.connections ensures Members(p', d) {
      assert Members(p, d);
    }
  }

  lemma OkAdded(p: Proxy, m: nat, c: nat)
    requires Ok(p) && m in p.clients && p.clients[m].connection == None && c in p.connections
    requires Fits(p.config, m, p.clients[m], p.connections[c].(servers := [m] + p.connections[c].servers))
    requires forall k :: k in p.connections[c].servers ==> k in p.clients && Rank(p.clients[k].phase) >= Rank(PLAY_SERVER)
    ensures Ok(Added(p, m, c))
  {
    assert Members(p, c);
    var p' := Added(p, m, c);
    forall k | k in p'.clients ensures ClientFits(p', k) {
      assert ClientFits(p, k);
    }
    forall d | d in p'.connections ensures Members(p', d) {
      assert Members(p, d);
    }
  }

  lemma OkDeleted(p: Proxy, m: nat)
    requires Ok(p) && (m in p.clients ==> p.clients[m].connection == None)
    ensures Ok(Deleted(p, m))
  {
    var p' := Deleted(p, m);
    forall k | k in p'.clients ensures ClientFits(p', k) {
      assert ClientFits(p, k);
    }
    forall d | d in p'.connections ensures Members(p', d) {
      assert Members(p, d);
    }
  }

  /** Both a client that is alone and its connection change. */
  lemma OkAlone(p: Proxy, m: nat, client: Client, connection: Connection)
    requires Ok(p) && m in p.clients && p.clients[m].connection != None
    requires Of(p, m) in p.connections && p.connections[Of(p, m)].servers == [m] == connection.servers
    requires client.connection == p.clients[m].connection && Fits(p.config, m, client, connection)
    ensures Ok(WithConnection(WithClient(p, m, client), Of(p, m), connection))
  {
    var p' := WithConnection(WithClient(p, m, client), Of(p, m), connection);
    forall k | k in p'.clients ensures ClientFits(p', k) {
      assert ClientFits(p, k);
    }
    forall d | d in p'.connections ensures Members(p', d) {
      assert Members(p, d);
    }
  }

  // ---- Searches ----

  /** The first connection in the list that a client with these credentials can be
      attached to. */
  function FindAttach(p: Proxy, list: seq<nat>, credentials: Login): (r: Option<nat>)
    ensures r != None ==> Attachable(p, r.value, credentials)
    ensures r != None ==>
      exists k :: 0 <= k < |list| && list[k] == r.value && forall j :: 0 <= j < k ==> !Attachable(p, list[j], credentials)
    ensures r == None ==> forall c :: c in list ==> !Attachable(p, c, credentials)
  {
    if list == [] then None
    else if Attachable(p, list[0], credentials) then Some(list[0])
    else FindAttach(p, list[1..], credentials)
  }

  predicate Attachable(p: Proxy, c: nat, credentials: Login) {
    c in p.connections && p.connections[c].CanAttach() && Same(credentials, p.connections[c].credentials)
  }

  /** The first other connection for the same account and game server. */
  function FindOther(p: Proxy, list: seq<nat>, c: nat): (r: Option<nat>)
    requires c in p.connections
    ensures r != None ==> IsOther(p, r.value, c)
    ensures r != None ==>
      exists k :: 0 <= k < |list| && list[k] == r.value && forall j :: 0 <= j < k ==> !IsOther(p, list[j], c)
    ensures r == None ==> forall d :: d in list ==> !IsOther(p, d, c)
  {
    if list == [] then None
    else if IsOther(p, list[0], c) then Some(list[0])
    else FindOther(p, list[1..], c)
  }

  predicate IsOther(p: Proxy, d: nat, c: nat)
    requires c in p.connections
  {
    d != c && Attachable(p, d, p.connections[c].credentials) && p.connections[c].serverIndex == p.connections[d].serverIndex
  }

  predicate IsZombie(p: Proxy, m: nat, authId: nat) {
    m in p.clients && p.clients[m].phase == RELAY_SERVER && !p.clients[m].socket && p.clients[m].authId == authId
  }

  function FindZombieOf(p: Proxy, members: seq<nat>, authId: nat): (r: Option<nat>)
    ensures r != None ==> IsZombie(p, r.value, authId)
    ensures r != None ==>
      exists k :: 0 <= k < |members| && members[k] == r.value && forall j :: 0 <= j < k ==> !IsZombie(p, members[j], authId)
    ensures r == None ==> forall m :: m in members ==> !IsZombie(p, m, authId)
  {
    if members == [] then None
    else if IsZombie(p, members[0], authId) then Some(members[0])
    else FindZombieOf(p, members[1..], authId)
  }

  predicate HasZombie(p: Proxy, c: nat, credentials: Login, authId: nat) {
    && c in p.connections && Same(credentials, p.connections[c].credentials)
    && exists m :: m in p.connections[c].servers && IsZombie(p, m, authId)
  }

  /** The placeholder that a redirected client left behind. */
  function FindZombie(p: Proxy, list: seq<nat>, credentials: Login, authId: nat): (r: Option<nat>)
    ensures r != None ==> IsZombie(p, r.value, authId)
    ensures r != None ==>
      exists k :: 0 <= k < |list| && HasZombie(p, list[k], credentials, authId) && r.value in p.connections[list[k]].servers
                  && forall j :: 0 <= j < k ==> !HasZombie(p, list[j], credentials, authId)
    ensures r == None ==>
      forall c, m | c in list && c in p.connections && Same(credentials, p.connections[c].credentials) && m in p.connections[c].servers ::
        !IsZombie(p, m, authId)
  {
    if list == [] then None
    else
      var here := if list[0] in p.connections && Same(credentials, p.connections[list[0]].credentials)
                  then FindZombieOf(p, p.connections[list[0]].servers, authId) else None;
      if here != None then here else FindZombie(p, list[1..], credentials, authId)
  }

  // ---- Leaving ----

  /** The connection of a client that has left. */
  function Orphaned(p: Proxy, m: nat, c: nat, keep: bool): Proxy
    requires c in p.connections
  {
    Deleted(if p.connections[c].servers == [] && !keep then Destroyed(p, c) else p, m)
  }

  /** A packet handler has refused the client. */
  function Kicked(p: Proxy, m: nat): Proxy
    requires m in p.clients && p.clients[m].connection != None && Of(p, m) in p.connections
  {
    Orphaned(Detached(p, m), m, Of(p, m), p.config.background)
  }

  /** The client has disconnected. */
  function Gone(p: Proxy, m: nat): Proxy
    requires m in p.clients && p.clients[m].connection != None && Of(p, m) in p.connections
  {
    var c := p.connections[Of(p, m)];
    Orphaned(Detached(p, m), m, Of(p, m), p.config.background && c.connected && c.inGame)
  }

  /** Deleting a connection without clients drops nobody. */
  lemma NobodyDropped(p: Proxy, c: nat)
    requires c in p.connections && p.connections[c].servers == []
    ensures Destroyed(p, c).clients == p.clients
  {
  }

  lemma OkOrphaned(p: Proxy, m: nat, c: nat, keep: bool)
    requires Ok(p) && c in p.connections && m in p.clients && p.clients[m].connection == None
    ensures Ok(Orphaned(p, m, c, keep)) && Orphaned(p, m, c, keep).clients == p.clients - {m}
    ensures Orphaned(p, m, c, keep).nextId == p.nextId
  {
    if p.connections[c].servers == [] && !keep {
      NobodyDropped(p, c);
      OkDestroyed(p, c);
      OkDeleted(Destroyed(p, c), m);
    } else {
      OkDeleted(p, m);
    }
  }

  lemma ValidOrphaned(p: Proxy, m: nat, keep: bool)
    requires Valid(p) && m in p.clients
    ensures Of(p, m) in p.connections && Valid(Orphaned(Detached(p, m), m, Of(p, m), keep))
    ensures Orphaned(Detached(p, m), m, Of(p, m), keep).clients == p.clients - {m}
    ensures Orphaned(Detached(p, m), m, Of(p, m), keep).nextId == p.nextId
  {
    OkDetached(p, m);
    OkOrphaned(Detached(p, m), m, Of(p, m), keep);
    assert Detached(p, m).clients - {m} == p.clients - {m};
  }

  // ---- Handlers for packets from a client ----

  /** The client has presented its credentials. */
  function Identified(p: Proxy, m: nat, credentials: Login): Proxy
    requires m in p.clients && p.clients[m].connection != None && Of(p, m) in p.connections
  {
    WithConnection(WithClient(p, m, p.clients[m].(phase := ACCOUNT_LOGIN, checked := Some(credentials), presented := Some(credentials))),
                   Of(p, m), p.connections[Of(p, m)].(credentials := credentials))
  }

  /** The client gets the server list of a connection for its account, or the
      configured list, or waits for the login server. */
  function Answered(p: Proxy, m: nat, credentials: Login): Proxy
    requires m in p.clients && p.clients[m].connection != None && Of(p, m) in p.connections
  {
    var c := Of(p, m);
    if FindAttach(p, p.order, credentials) != None then WithClient(p, m, p.clients[m].(phase := SERVER_LIST))
    else if p.config.gameServers > 0 then p
    else if p.config.loginAddress then WithConnection(p, c, p.connections[c].(connecting := true))
    else Kicked(p, m)
  }

  function AccountLogin(p: Proxy, m: nat, credentials: Login): Proxy
    requires m in p.clients && p.clients[m].connection != None && Of(p, m) in p.connections
  {
    if p.clients[m].phase != INIT || p.connections[Of(p, m)].connected then Kicked(p, m)
    else Answered(Identified(p, m, credentials), m, credentials)
  }

  /** What the client gets after its game login. */
  function Entered(p: Proxy, m: nat): Proxy
    requires m in p.clients && p.clients[m].connection != None && Of(p, m) in p.connections
  {
    var c := p.connections[Of(p, m)];
    if c.inGame then WithClient(p, m, p.clients[m].(phase := IN_GAME))
    else if c.charList then WithClient(p, m, p.clients[m].(phase := CHAR_LIST))
    else p
  }

  /** A client leaves its connection, which is deleted, and goes to another one. */
  function Moved(p: Proxy, m: nat, d: nat, client: Client): Proxy
    requires m in p.clients && p.clients[m].connection != None && Of(p, m) in p.connections
  {
    var p1 := Destroyed(Detached(p, m), Of(p, m));
    if m in p1.clients && d in p1.connections then
      Added(WithClient(p1, m, client.(connection := None)), m, d)
    else p1
  }

  function GameLogin(p: Proxy, m: nat, credentials: Login, authId: nat): Proxy
    requires m in p.clients && p.clients[m].connection != None && Of(p, m) in p.connections
  {
    if !p.config.razorWorkaround then Kicked(p, m)
    else if p.clients[m].phase == RELAY_SERVER then
      Entered(WithClient(p, m, p.clients[m].(phase := GAME_LOGIN, presented := Some(credentials))), m)
    else if p.clients[m].phase != INIT then Kicked(p, m)
    else
      var zombie := FindZombie(p, p.order, credentials, authId);
      if zombie == None then Kicked(p, m) else Replaced(p, m, zombie.value, credentials)
  }

  /** The client takes the place of its placeholder. */
  function Replaced(p: Proxy, m: nat, zombie: nat, credentials: Login): Proxy
    requires m in p.clients && p.clients[m].connection != None && Of(p, m) in p.connections
    requires zombie in p.clients
  {
    if p.clients[zombie].connection == None then p
    else
      var p1 := TakenOver(p, m, zombie, credentials);
      if zombie in p1.clients && p1.clients[zombie].connection != None && Of(p1, zombie) in p1.connections then
        var p2 := Deleted(Detached(p1, zombie), zombie);
        if m in p2.clients && p2.clients[m].connection != None && Of(p2, m) in p2.connections then Entered(p2, m) else p2
      else p1
  }

  function PlayCharacter(p: Proxy, m: nat): Proxy
    requires m in p.clients && p.clients[m].connection != None && Of(p, m) in p.connections
  {
    if p.clients[m].phase == CHAR_LIST then WithClient(p, m, p.clients[m].(phase := PLAY_CHAR)) else Kicked(p, m)
  }

  /** The client is told to reconnect, if that is possible. */
  function Redirected(p: Proxy, m: nat, ipv4: bool, authId: nat): Proxy
    requires m in p.clients
  {
    if p.config.razorWorkaround && ipv4 then
      WithClient(p, m, p.clients[m].(phase := RELAY_SERVER, authId := authId))
    else p
  }

  /** The client has chosen a game server. */
  function Chosen(p: Proxy, m: nat, index: nat): Proxy
    requires m in p.clients && p.clients[m].connection != None && Of(p, m) in p.connections
  {
    WithConnection(WithClient(p, m, p.clients[m].(phase := PLAY_SERVER)),
                   Of(p, m), p.connections[Of(p, m)].(serverIndex := index))
  }

  /** The client goes to another connection for its account and game server, if
      there is one. */
  function Placed(p: Proxy, m: nat, index: nat, ipv4: bool, authId: nat): Proxy
    requires m in p.clients && p.clients[m].connection != None && Of(p, m) in p.connections
  {
    var c := Of(p, m);
    var other := FindOther(p, p.order, c);
    if other != None then
      var p1 := Moved(p, m, other.value, p.clients[m]);
      if m !in p1.clients then p1
      else if p.config.razorWorkaround then Redirected(p1, m, ipv4, authId)
      else WithClient(p1, m, p1.clients[m].(phase := IN_GAME))
    else if !p.config.loginAddress && p.config.gameServers > 0 then
      if index >= p.config.gameServers then Kicked(p, m)
      else Redirected(WithConnection(p, c, p.connections[c].(connecting := true)), m, ipv4, authId)
    else Redirected(p, m, ipv4, authId)
  }

  function PlayServer(p: Proxy, m: nat, index: nat, ipv4: bool, authId: nat): Proxy
    requires m in p.clients && p.clients[m].connection != None && Of(p, m) in p.connections
  {
    if p.clients[m].phase != SERVER_LIST then Kicked(p, m) else Placed(Chosen(p, m, index), m, index, ipv4, authId)
  }

  // ---- Handlers for packets from the game server, and other events ----

  function WithPhase(client: Client, phase: Phase): Client {
    client.(phase := phase)
  }

  function PromotedClients(clients: map<nat, Client>, members: seq<nat>, from: set<Phase>, to: Phase): map<nat, Client> {
    map m | m in clients :: if m in members && clients[m].phase in from then WithPhase(clients[m], to) else clients[m]
  }

  /** Members of a connection that are in certain phases go to another phase. */
  function Promoted(p: Proxy, c: nat, from: set<Phase>, to: Phase): Proxy
    requires c in p.connections
  {
    p.(clients := PromotedClients(p.clients, p.connections[c].servers, from, to))
  }

  const ANY_PHASE: set<Phase> :=
    {INIT, ACCOUNT_LOGIN, SERVER_LIST, PLAY_SERVER, RELAY_SERVER, GAME_LOGIN, CHAR_LIST, PLAY_CHAR, IN_GAME}

  /** The player enters the game, and with it all clients. */
  function OnStart(p: Proxy, c: nat, hasSerial: bool): Proxy
    requires c in p.connections
  {
    var p1 := Promoted(p, c, ANY_PHASE, IN_GAME);
    WithConnection(p1, c, p1.connections[c].(inGame := hasSerial))
  }

  function OnCharList(p: Proxy, c: nat, saved: bool, reconnecting: bool): Proxy
    requires c in p.connections
  {
    var p1 := WithConnection(p, c, p.connections[c].(charList := p.connections[c].charList || saved));
    if reconnecting then p1 else Promoted(p1, c, {GAME_LOGIN, PLAY_SERVER}, CHAR_LIST)
  }

  /** The connection to the server is given up, or will be made again. */
  function ServerGone(p: Proxy, c: nat): Proxy
    requires c in p.connections
  {
    if p.config.autoreconnect && p.connections[c].inGame then
      WithConnection(p, c, p.connections[c].(connected := false))
    else Destroyed(p, c)
  }

  function OnServerList(p: Proxy, c: nat, wellFormed: bool, ordered: bool, reconnecting: bool): Proxy
    requires c in p.connections
  {
    if !wellFormed then ServerGone(p, c)
    else if reconnecting then p
    else if !ordered then ServerGone(p, c)
    else Promoted(p, c, {ACCOUNT_LOGIN}, SERVER_LIST)
  }

  function OnRelay(p: Proxy, c: nat, reconnecting: bool): Proxy
    requires c in p.connections
  {
    if p.connections[c].inGame && !reconnecting then ServerGone(p, c)
    else WithConnection(p, c, p.connections[c].(connected := false, connecting := true))
  }

  function NewConnection(m: nat): Connection {
    Connection([m], NO_LOGIN, 0, false, false, false, false)
  }

  /** A new client with a connection of its own. */
  function Accepted(p: Proxy): Proxy {
    var m, c := p.nextId, p.nextId + 1;
    p.(clients := p.clients[m := Client(Some(c), INIT, true, 0, None, None)],
       connections := p.connections[c := NewConnection(m)],
       order := [c] + p.order, nextId := p.nextId + 2)
  }

  /** A client that was told to reconnect remains as a placeholder. */
  function OnDisconnect(p: Proxy, m: nat): Proxy
    requires m in p.clients && p.clients[m].connection != None && Of(p, m) in p.connections
  {
    if p.clients[m].phase == RELAY_SERVER then WithClient(p, m, p.clients[m].(socket := false)) else Gone(p, m)
  }

  // ---- Proofs ----

  lemma ValidKicked(p: Proxy, m: nat)
    requires Valid(p) && m in p.clients
    ensures Of(p, m) in p.connections && Valid(Kicked(p, m)) && Kicked(p, m).clients == p.clients - {m}
    ensures Kicked(p, m).nextId == p.nextId
  {
    ValidOrphaned(p, m, p.config.background);
  }

  lemma ValidGone(p: Proxy, m: nat)
    requires Valid(p) && m in p.clients
    ensures Of(p, m) in p.connections && Valid(Gone(p, m)) && Gone(p, m).clients == p.clients - {m}
    ensures Gone(p, m).nextId == p.nextId
  {
    assert ClientFits(p, m);
    var c := p.connections[Of(p, m)];
    ValidOrphaned(p, m, p.config.background && c.connected && c.inGame);
  }

  lemma ValidIdentified(p: Proxy, m: nat, credentials: Login)
    requires Valid(p) && m in p.clients && p.clients[m].phase == INIT
    ensures Of(p, m) in p.connections
    ensures var p' := Identified(p, m, credentials);
            && Valid(p') && p'.clients[m].phase == ACCOUNT_LOGIN && p'.connections[Of(p, m)].servers == [m]
            && Of(p', m) == Of(p, m)
  {
    assert ClientFits(p, m);
    SameIsEquivalence(credentials, credentials, credentials);
    OkAlone(p, m, p.clients[m].(phase := ACCOUNT_LOGIN, checked := Some(credentials), presented := Some(credentials)),
            p.connections[Of(p, m)].(credentials := credentials));
  }

  lemma ValidAnswered(p: Proxy, m: nat, credentials: Login)
    requires Valid(p) && m in p.clients && p.clients[m].phase == ACCOUNT_LOGIN
    ensures Of(p, m) in p.connections && Valid(Answered(p, m, credentials))
  {
    assert ClientFits(p, m);
    var c := Of(p, m);
    if FindAttach(p, p.order, credentials) != None {
      OkWithClient(p, m, p.clients[m].(phase := SERVER_LIST));
    } else if p.config.gameServers > 0 {
    } else if p.config.loginAddress {
      OkWithConnection(p, c, p.connections[c].(connecting := true));
    } else {
      ValidKicked(p, m);
    }
  }

  lemma ValidAccountLogin(p: Proxy, m: nat, credentials: Login)
    requires Valid(p) && m in p.clients
    ensures Of(p, m) in p.connections && Valid(AccountLogin(p, m, credentials))
  {
    ValidKicked(p, m);
    if p.clients[m].phase == INIT {
      ValidIdentified(p, m, credentials);
      ValidAnswered(Identified(p, m, credentials), m, credentials);
    }
  }

  lemma ValidPlayCharacter(p: Proxy, m: nat)
    requires Valid(p) && m in p.clients
    ensures Of(p, m) in p.connections && Valid(PlayCharacter(p, m))
  {
    assert ClientFits(p, m);
    if p.clients[m].phase == CHAR_LIST {
      OkWithClient(p, m, p.clients[m].(phase := PLAY_CHAR));
    } else {
      ValidKicked(p, m);
    }
  }

  lemma ValidEntered(p: Proxy, m: nat)
    requires Valid(p) && m in p.clients && p.clients[m].phase == GAME_LOGIN
    ensures Of(p, m) in p.connections && Valid(Entered(p, m))
  {
    assert ClientFits(p, m);
    OkWithClient(p, m, p.clients[m].(phase := IN_GAME));
    OkWithClient(p, m, p.clients[m].(phase := CHAR_LIST));
  }

  /** Where a client that is alone on its connection can go. */
  ghost predicate CanMove(p: Proxy, m: nat, d: nat) {
    && m in p.clients && p.clients[m].connection != None && Of(p, m) in p.connections
    && p.connections[Of(p, m)].servers == [m] && d in p.connections && d != Of(p, m)
    && (forall k :: k in p.connections[d].servers ==> k in p.clients && Rank(p.clients[k].phase) >= Rank(PLAY_SERVER))
  }

  /** The move drops nobody, and changes no other client and connection. */
  lemma MovedIs(p: Proxy, m: nat, d: nat, client: Client)
    requires CanMove(p, m, d)
    ensures var p' := Moved(p, m, d, client);
            && p'.clients == p.clients[m := client.(connection := Some(d))]
            && p'.connections == (p.connections - {Of(p, m)})[d := p.connections[d].(servers := [m] + p.connections[d].servers)]
            && p'.config == p.config && p'.nextId == p.nextId
  {
    var c := Of(p, m);
    var p1 := Detached(p, m);
    assert Unlinked([m], m) == [];
    NobodyDropped(p1, c);
    assert p1.connections - {c} == p.connections - {c};
    assert p1.clients[m := client.(connection := None)] == p.clients[m := client.(connection := None)];
    var p2 := Destroyed(p1, c);
    assert d in p2.connections;
  }

  lemma OkMoved(p: Proxy, m: nat, d: nat, client: Client)
    requires Ok(p) && CanMove(p, m, d)
    requires Rank(client.phase) >= Rank(PLAY_SERVER) && client.checked != None && client.socket
    requires Same(client.checked.value, p.connections[d].credentials)
    ensures Ok(Moved(p, m, d, client))
  {
    var c := Of(p, m);
    OkDetached(p, m);
    var p1 := Detached(p, m);
    NobodyDropped(p1, c);
    OkDestroyed(p1, c);
    var p2 := Destroyed(p1, c);
    OkWithClient(p2, m, client.(connection := None));
    var p3 := WithClient(p2, m, client.(connection := None));
    assert p3.connections[d] == p.connections[d];
    assert Members(p, d);
    OkAdded(p3, m, d);
  }

  /** A connection on which the player is in the game, or some client has chosen a
      game server, has only such clients. */
  lemma AllBeyond(p: Proxy, d: nat, z: nat)
    requires Ok(p) && d in p.connections
    requires p.connections[d].inGame || (z in p.connections[d].servers && z in p.clients && Rank(p.clients[z].phase) >= Rank(PLAY_SERVER))
    ensures forall k :: k in p.connections[d].servers ==> k in p.clients && Rank(p.clients[k].phase) >= Rank(PLAY_SERVER)
  {
    assert Members(p, d);
    forall k | k in p.connections[d].servers ensures Rank(p.clients[k].phase) >= Rank(PLAY_SERVER) {
      assert ClientFits(p, k);
    }
  }

  lemma ValidMoved(p: Proxy, m: nat, d: nat, client: Client)
    requires Valid(p) && CanMove(p, m, d)
    requires Rank(client.phase) >= Rank(PLAY_SERVER) && client.checked != None && client.socket
    requires Same(client.checked.value, p.connections[d].credentials)
    ensures Valid(Moved(p, m, d, client))
  {
    MovedIs(p, m, d, client);
    OkMoved(p, m, d, client);
  }

  lemma ValidWithClient(p: Proxy, m: nat, client: Client)
    requires Valid(p) && m in p.clients && client.connection == p.clients[m].connection
    requires client.connection.value in p.connections
    requires Fits(p.config, m, client, p.connections[client.connection.value])
    ensures Valid(WithClient(p, m, client))
  {
    OkWithClient(p, m, client);
  }

  lemma ValidReaped(p: Proxy, zombie: nat)
    requires Valid(p) && zombie in p.clients
    ensures Of(p, zombie) in p.connections
    ensures var p' := Deleted(Detached(p, zombie), zombie); Valid(p') && p'.clients == p.clients - {zombie}
  {
    OkDetached(p, zombie);
    OkDeleted(Detached(p, zombie), zombie);
    assert Detached(p, zombie).clients - {zombie} == p.clients - {zombie};
  }

  lemma CanReplace(p: Proxy, m: nat, zombie: nat)
    requires Valid(p) && m in p.clients && p.clients[m].phase == INIT
    requires zombie in p.clients && p.clients[zombie].phase == RELAY_SERVER
    ensures Of(p, zombie) in p.connections && CanMove(p, m, Of(p, zombie)) && p.clients[m].socket
  {
    assert ClientFits(p, m) && ClientFits(p, zombie);
    AllBeyond(p, Of(p, zombie), zombie);
  }

  /** The client is on the placeholder's connection. */
  function TakenOver(p: Proxy, m: nat, zombie: nat, credentials: Login): Proxy
    requires m in p.clients && p.clients[m].connection != None && Of(p, m) in p.connections
    requires zombie in p.clients && p.clients[zombie].connection != None
  {
    Moved(p, m, Of(p, zombie), p.clients[m].(phase := GAME_LOGIN, checked := Some(credentials), presented := Some(credentials)))
  }

  lemma ValidTakenOver(p: Proxy, m: nat, zombie: nat, credentials: Login)
    requires Valid(p) && m in p.clients && p.clients[m].phase == INIT
    requires zombie in p.clients && p.clients[zombie].phase == RELAY_SERVER
    requires Of(p, zombie) in p.connections && Same(credentials, p.connections[Of(p, zombie)].credentials)
    ensures Of(p, m) in p.connections
    ensures var p' := TakenOver(p, m, zombie, credentials);
            && Valid(p') && (forall k :: k in p'.clients <==> k in p.clients) && m != zombie
            && m in p'.clients && p'.clients[m].phase == GAME_LOGIN
  {
    CanReplace(p, m, zombie);
    var client := p.clients[m].(phase := GAME_LOGIN, checked := Some(credentials), presented := Some(credentials));
    ValidMoved(p, m, Of(p, zombie), client);
    MovedIs(p, m, Of(p, zombie), client);
  }

  lemma ReapedKeeps(p: Proxy, p': Proxy, m: nat, zombie: nat)
    requires p'.clients == p.clients - {zombie} && m in p.clients && m != zombie
    ensures m in p'.clients && p'.clients[m] == p.clients[m]
    ensures forall k :: k in p'.clients <==> k in p.clients && k != zombie
  {
  }

  lemma EnteredKeeps(p: Proxy, m: nat)
    requires m in p.clients && p.clients[m].connection != None && Of(p, m) in p.connections
    ensures forall k :: k in Entered(p, m).clients <==> k in p.clients
  {
  }

  lemma ValidReplaced(p: Proxy, m: nat, zombie: nat, credentials: Login)
    requires Valid(p) && m in p.clients && p.clients[m].phase == INIT
    requires zombie in p.clients && p.clients[zombie].phase == RELAY_SERVER
    requires Of(p, zombie) in p.connections && Same(credentials, p.connections[Of(p, zombie)].credentials)
    ensures Of(p, m) in p.connections && Valid(Replaced(p, m, zombie, credentials))
    ensures forall k :: k in Replaced(p, m, zombie, credentials).clients <==> k in p.clients && k != zombie
  {
    ValidTakenOver(p, m, zombie, credentials);
    var p1 := TakenOver(p, m, zombie, credentials);
    ValidReaped(p1, zombie);
    var p2 := Deleted(Detached(p1, zombie), zombie);
    ReapedKeeps(p1, p2, m, zombie);
    ValidEntered(p2, m);
    EnteredKeeps(p2, m);
    assert Replaced(p, m, zombie, credentials) == Entered(p2, m);
  }

  lemma ValidGameLogin(p: Proxy, m: nat, credentials: Login, authId: nat)
    requires Valid(p) && m in p.clients && p.clients[m].socket
    ensures Of(p, m) in p.connections && Valid(GameLogin(p, m, credentials, authId))
  {
    assert ClientFits(p, m);
    if !p.config.razorWorkaround {
      ValidKicked(p, m);
    } else if p.clients[m].phase == RELAY_SERVER {
      var client := p.clients[m].(phase := GAME_LOGIN, presented := Some(credentials));
      ValidWithClient(p, m, client);
      ValidEntered(WithClient(p, m, client), m);
    } else if p.clients[m].phase != INIT {
      ValidKicked(p, m);
    } else {
      var zombie := FindZombie(p, p.order, credentials, authId);
      if zombie == None {
        ValidKicked(p, m);
      } else {
        ZombieConnection(p, credentials, authId);
        ValidReplaced(p, m, zombie.value, credentials);
      }
    }
  }

  lemma ZombieConnection(p: Proxy, credentials: Login, authId: nat)
    requires Ok(p) && FindZombie(p, p.order, credentials, authId) != None
    ensures var z := FindZombie(p, p.order, credentials, authId).value;
            && z in p.clients && p.clients[z].connection != None && Of(p, z) in p.connections
            && Same(credentials, p.connections[Of(p, z)].credentials)
  {
    var z := FindZombie(p, p.order, credentials, authId).value;
    var c :| c in p.order && c in p.connections && z in p.connections[c].servers && Same(credentials, p.connections[c].credentials);
    assert Members(p, c);
  }

  lemma ValidRedirected(p: Proxy, m: nat, ipv4: bool, authId: nat)
    requires Valid(p) && m in p.clients && p.clients[m].phase == PLAY_SERVER
    ensures Valid(Redirected(p, m, ipv4, authId))
  {
    assert ClientFits(p, m);
    OkWithClient(p, m, p.clients[m].(phase := RELAY_SERVER, authId := authId));
  }

  lemma CanAttachTo(p: Proxy, m: nat, d: nat)
    requires Valid(p) && m in p.clients && p.clients[m].phase == PLAY_SERVER
    requires Of(p, m) in p.connections && p.connections[Of(p, m)].servers == [m] && IsOther(p, d, Of(p, m))
    ensures CanMove(p, m, d) && p.clients[m].socket && p.clients[m].checked != None
    ensures Same(p.clients[m].checked.value, p.connections[d].credentials)
  {
    assert ClientFits(p, m);
    AllBeyond(p, d, m);
    SameIsEquivalence(p.clients[m].checked.value, p.connections[Of(p, m)].credentials, p.connections[d].credentials);
  }

  lemma ValidArrived(p: Proxy, m: nat, d: nat)
    requires Valid(p) && m in p.clients && p.clients[m].phase == PLAY_SERVER
    requires Of(p, m) in p.connections && p.connections[Of(p, m)].servers == [m] && IsOther(p, d, Of(p, m))
    ensures var p' := Moved(p, m, d, p.clients[m]);
            Valid(p') && (forall k :: k in p'.clients <==> k in p.clients) && m in p'.clients && p'.clients[m].phase == PLAY_SERVER
  {
    CanAttachTo(p, m, d);
    MovedIs(p, m, d, p.clients[m]);
    ValidMoved(p, m, d, p.clients[m]);
  }

  lemma ValidInGame(p: Proxy, m: nat)
    requires Valid(p) && m in p.clients && p.clients[m].phase == PLAY_SERVER
    ensures Valid(WithClient(p, m, p.clients[m].(phase := IN_GAME)))
  {
    assert ClientFits(p, m);
    ValidWithClient(p, m, p.clients[m].(phase := IN_GAME));
  }

  lemma ValidAttached(p: Proxy, m: nat, d: nat, ipv4: bool, authId: nat)
    requires Valid(p) && m in p.clients && p.clients[m].phase == PLAY_SERVER
    requires Of(p, m) in p.connections && p.connections[Of(p, m)].servers == [m] && IsOther(p, d, Of(p, m))
    ensures var p' := Moved(p, m, d, p.clients[m]);
            && m in p'.clients && (forall k :: k in p'.clients <==> k in p.clients)
            && Valid(Redirected(p', m, ipv4, authId)) && Valid(WithClient(p', m, p'.clients[m].(phase := IN_GAME)))
  {
    ValidArrived(p, m, d);
    var p' := Moved(p, m, d, p.clients[m]);
    ValidInGame(p', m);
    ValidRedirected(p', m, ipv4, authId);
  }

  lemma ValidChosen(p: Proxy, m: nat, index: nat)
    requires Valid(p) && m in p.clients && p.clients[m].phase == SERVER_LIST
    ensures Of(p, m) in p.connections
    ensures var p' := Chosen(p, m, index);
            && Valid(p') && p'.clients[m].phase == PLAY_SERVER && Of(p', m) == Of(p, m)
            && p'.connections[Of(p', m)].servers == [m]
  {
    assert ClientFits(p, m);
    OkAlone(p, m, p.clients[m].(phase := PLAY_SERVER), p.connections[Of(p, m)].(serverIndex := index));
  }

  lemma ValidConnecting(p: Proxy, m: nat)
    requires Valid(p) && m in p.clients && p.clients[m].phase == PLAY_SERVER
    requires Of(p, m) in p.connections && p.connections[Of(p, m)].servers == [m]
    ensures Valid(WithConnection(p, Of(p, m), p.connections[Of(p, m)].(connecting := true)))
  {
    assert ClientFits(p, m);
    OkWithConnection(p, Of(p, m), p.connections[Of(p, m)].(connecting := true));
  }

  lemma ValidPlaced(p: Proxy, m: nat, index: nat, ipv4: bool, authId: nat)
    requires Valid(p) && m in p.clients && p.clients[m].phase == PLAY_SERVER
    requires Of(p, m) in p.connections && p.connections[Of(p, m)].servers == [m]
    ensures Valid(Placed(p, m, index, ipv4, authId))
  {
    var c := Of(p, m);
    var other := FindOther(p, p.order, c);
    if other != None {
      ValidAttached(p, m, other.value, ipv4, authId);
    } else if !p.config.loginAddress && p.config.gameServers > 0 {
      if index >= p.config.gameServers {
        ValidKicked(p, m);
      } else {
        ValidConnecting(p, m);
        ValidRedirected(WithConnection(p, c, p.connections[c].(connecting := true)), m, ipv4, authId);
      }
    } else {
      ValidRedirected(p, m, ipv4, authId);
    }
  }

  lemma ValidPlayServer(p: Proxy, m: nat, index: nat, ipv4: bool, authId: nat)
    requires Valid(p) && m in p.clients
    ensures Of(p, m) in p.connections && Valid(PlayServer(p, m, index, ipv4, authId))
  {
    ValidKicked(p, m);
    if p.clients[m].phase == SERVER_LIST {
      ValidChosen(p, m, index);
      ValidPlaced(Chosen(p, m, index), m, index, ipv4, authId);
    }
  }

  lemma OkPromoted(p: Proxy, c: nat, from: set<Phase>, to: Phase)
    requires Ok(p) && c in p.connections && to != INIT
    requires forall m :: m in p.connections[c].servers && m in p.clients && p.clients[m].phase in from ==>
               Fits(p.config, m, p.clients[m].(phase := to), p.connections[c])
    ensures Ok(Promoted(p, c, from, to))
  {
    var p' := Promoted(p, c, from, to);
    assert Members(p, c);
    forall k | k in p'.clients ensures ClientFits(p', k) {
      assert ClientFits(p, k);
    }
    forall d | d in p'.connections ensures Members(p', d) {
      assert Members(p, d);
    }
  }

  lemma ValidPromoted(p: Proxy, c: nat, from: set<Phase>, to: Phase)
    requires Valid(p) && c in p.connections && to != INIT
    requires forall m :: m in p.connections[c].servers && m in p.clients && p.clients[m].phase in from ==>
               Fits(p.config, m, p.clients[m].(phase := to), p.connections[c])
    ensures Valid(Promoted(p, c, from, to))
  {
    OkPromoted(p, c, from, to);
  }

  lemma ValidAllInGame(p: Proxy, c: nat)
    requires Valid(p) && c in p.connections && p.connections[c].connected
    ensures Valid(Promoted(p, c, ANY_PHASE, IN_GAME))
  {
    assert Members(p, c);
    forall m | m in p.connections[c].servers
      ensures Fits(p.config, m, p.clients[m].(phase := IN_GAME), p.connections[c])
    {
      assert ClientFits(p, m);
    }
    ValidPromoted(p, c, ANY_PHASE, IN_GAME);
  }

  lemma ValidSetInGame(p: Proxy, c: nat, hasSerial: bool)
    requires Valid(p) && c in p.connections
    requires forall m :: m in p.connections[c].servers ==> m in p.clients && p.clients[m].phase == IN_GAME
    ensures Valid(WithConnection(p, c, p.connections[c].(inGame := hasSerial)))
  {
    var connection := p.connections[c].(inGame := hasSerial);
    forall m | m in connection.servers ensures Fits(p.config, m, p.clients[m], connection) {
      assert Members(p, c) && ClientFits(p, m);
    }
    OkWithConnection(p, c, connection);
  }

  /** After a Start packet, all clients of the connection are in the game. */
  lemma AllInGame(p: Proxy, c: nat)
    requires Valid(p) && c in p.connections
    ensures var p' := Promoted(p, c, ANY_PHASE, IN_GAME);
            forall m :: m in p'.connections[c].servers ==> m in p'.clients && p'.clients[m].phase == IN_GAME
  {
    assert Members(p, c);
    var p' := Promoted(p, c, ANY_PHASE, IN_GAME);
    forall m | m in p'.connections[c].servers ensures m in p'.clients && p'.clients[m].phase == IN_GAME {
      AnyPhase(p.clients[m].phase);
    }
  }

  lemma ValidOnStart(p: Proxy, c: nat, hasSerial: bool)
    requires Valid(p) && c in p.connections && p.connections[c].connected
    ensures Valid(OnStart(p, c, hasSerial))
  {
    ValidAllInGame(p, c);
    AllInGame(p, c);
    ValidSetInGame(Promoted(p, c, ANY_PHASE, IN_GAME), c, hasSerial);
  }

  lemma AnyPhase(phase: Phase)
    ensures phase in ANY_PHASE
  {
  }

  lemma ValidCharListSaved(p: Proxy, c: nat, charList: bool)
    requires Valid(p) && c in p.connections
    ensures Valid(WithConnection(p, c, p.connections[c].(charList := charList)))
  {
    var connection := p.connections[c].(charList := charList);
    assert Members(p, c);
    forall m | m in connection.servers ensures Fits(p.config, m, p.clients[m], connection) {
      assert ClientFits(p, m);
    }
    OkWithConnection(p, c, connection);
  }

  lemma ValidCharListSent(p: Proxy, c: nat)
    requires Valid(p) && c in p.connections
    ensures Valid(Promoted(p, c, {GAME_LOGIN, PLAY_SERVER}, CHAR_LIST))
  {
    assert Members(p, c);
    forall m | m in p.connections[c].servers && p.clients[m].phase in {GAME_LOGIN, PLAY_SERVER}
      ensures Fits(p.config, m, p.clients[m].(phase := CHAR_LIST), p.connections[c])
    {
      assert ClientFits(p, m);
    }
    ValidPromoted(p, c, {GAME_LOGIN, PLAY_SERVER}, CHAR_LIST);
  }

  lemma ValidOnCharList(p: Proxy, c: nat, saved: bool, reconnecting: bool)
    requires Valid(p) && c in p.connections
    ensures Valid(OnCharList(p, c, saved, reconnecting))
  {
    var charList := p.connections[c].charList || saved;
    ValidCharListSaved(p, c, charList);
    ValidCharListSent(WithConnection(p, c, p.connections[c].(charList := charList)), c);
  }

  lemma ValidDestroyed(p: Proxy, c: nat)
    requires Valid(p) && c in p.connections
    ensures Valid(Destroyed(p, c))
  {
    OkDestroyed(p, c);
  }

  /** A connection's link to the server changes. Clients at the start of their
      login can only lose it. */
  lemma ValidLink(p: Proxy, c: nat, connecting: bool, connected: bool)
    requires Valid(p) && c in p.connections
    requires connecting || connected ==>
               p.connections[c].connecting || p.connections[c].connected || p.connections[c].inGame
    ensures Valid(WithConnection(p, c, p.connections[c].(connecting := connecting, connected := connected)))
  {
    var connection := p.connections[c].(connecting := connecting, connected := connected);
    assert Members(p, c);
    forall m | m in connection.servers ensures Fits(p.config, m, p.clients[m], connection) {
      assert ClientFits(p, m);
    }
    OkWithConnection(p, c, connection);
  }

  lemma ValidServerGone(p: Proxy, c: nat)
    requires Valid(p) && c in p.connections
    ensures Valid(ServerGone(p, c))
  {
    if p.config.autoreconnect && p.connections[c].inGame {
      ValidLink(p, c, p.connections[c].connecting, false);
    } else {
      ValidDestroyed(p, c);
    }
  }

  lemma ValidOnServerList(p: Proxy, c: nat, wellFormed: bool, ordered: bool, reconnecting: bool)
    requires Valid(p) && c in p.connections && p.connections[c].connected
    ensures Valid(OnServerList(p, c, wellFormed, ordered, reconnecting))
  {
    ValidServerGone(p, c);
    assert Members(p, c);
    forall m | m in p.connections[c].servers && p.clients[m].phase == ACCOUNT_LOGIN
      ensures Fits(p.config, m, p.clients[m].(phase := SERVER_LIST), p.connections[c])
    {
      assert ClientFits(p, m);
    }
    ValidPromoted(p, c, {ACCOUNT_LOGIN}, SERVER_LIST);
  }

  lemma AcceptedFits(p: Proxy, k: nat)
    requires Valid(p) && k in Accepted(p).clients
    ensures ClientFits(Accepted(p), k)
  {
    if k in p.clients {
      assert ClientFits(p, k);
    }
  }

  lemma AcceptedMembers(p: Proxy, d: nat)
    requires Valid(p) && d in Accepted(p).connections
    ensures Members(Accepted(p), d)
  {
    if d in p.connections {
      assert Members(p, d);
    }
  }

  lemma AcceptedOrder(p: Proxy)
    requires Ok(p)
    ensures var p' := Accepted(p); Distinct(p'.order) && forall c :: c in p'.order <==> c in p'.connections
  {
    assert p.nextId + 1 !in p.order;
    DistinctCons(p.nextId + 1, p.order);
  }

  lemma ValidAccepted(p: Proxy)
    requires Valid(p)
    ensures Valid(Accepted(p))
  {
    var p' := Accepted(p);
    forall k | k in p'.clients ensures ClientFits(p', k) {
      AcceptedFits(p, k);
    }
    forall d | d in p'.connections ensures Members(p', d) {
      AcceptedMembers(p, d);
    }
    AcceptedOrder(p);
  }

  lemma ValidOnDisconnect(p: Proxy, m: nat)
    requires Valid(p) && m in p.clients
    ensures Of(p, m) in p.connections && Valid(OnDisconnect(p, m))
  {
    assert ClientFits(p, m);
    if p.clients[m].phase == RELAY_SERVER {
      ValidWithClient(p, m, p.clients[m].(socket := false));
    } else {
      ValidGone(p, m);
    }
  }

  // ---- Runs ----

  datatype Event =
    | Accepts
    | SendsAccountLogin(client: nat, credentials: Login)
    | SendsGameLogin(client: nat, credentials: Login, authId: nat)
    | SendsPlayServer(client: nat, index: nat, ipv4: bool, authId: nat)
    | SendsPlayCharacter(client: nat)
    | Disconnects(client: nat)
    | TimesOut(client: nat)
    | ServerStarts(connection: nat, hasSerial: bool)
    | ServerSendsCharList(connection: nat, saved: bool, reconnecting: bool)
    | ServerSendsServerList(connection: nat, wellFormed: bool, ordered: bool, reconnecting: bool)
    | ServerRelays(connection: nat, reconnecting: bool)
    | ServerDisconnects(connection: nat)
    | ConnectEnds(connection: nat, success: bool)
    | Reconnects(connection: nat)

  /** What can happen: a packet from a client takes a socket, one from a server a
      connection. While the player is in the game, a new connection to the server can
      be made at any time, because the old one was lost or a client told so. */
  predicate Possible(p: Proxy, e: Event) {
    match e
    case Accepts => true
    case SendsAccountLogin(m, _) => m in p.clients && p.clients[m].socket
    case SendsGameLogin(m, _, _) => m in p.clients && p.clients[m].socket
    case SendsPlayServer(m, _, _, _) => m in p.clients && p.clients[m].socket
    case SendsPlayCharacter(m) => m in p.clients && p.clients[m].socket
    case Disconnects(m) => m in p.clients && p.clients[m].socket
    case TimesOut(m) => m in p.clients && !p.clients[m].socket
    case ServerStarts(c, _) => c in p.connections && p.connections[c].connected
    case ServerSendsCharList(c, _, _) => c in p.connections && p.connections[c].connected
    case ServerSendsServerList(c, _, _, _) => c in p.connections && p.connections[c].connected
    case ServerRelays(c, _) => c in p.connections && p.connections[c].connected
    case ServerDisconnects(c) => c in p.connections && p.connections[c].connected
    case ConnectEnds(c, _) => c in p.connections && p.connections[c].connecting && !p.connections[c].connected
    case Reconnects(c) => c in p.connections && p.connections[c].inGame
  }

  /** Every client that is named is on a connection that exists. */
  lemma ValidHome(p: Proxy, m: nat)
    requires Valid(p) && m in p.clients
    ensures p.clients[m].connection != None && Of(p, m) in p.connections
  {
    assert ClientFits(p, m);
  }

  ghost function Step(p: Proxy, e: Event): Proxy
    requires Valid(p) && Possible(p, e)
  {
    match e
    case Accepts => Accepted(p)
    case SendsAccountLogin(m, credentials) => ValidHome(p, m); AccountLogin(p, m, credentials)
    case SendsGameLogin(m, credentials, authId) => ValidHome(p, m); GameLogin(p, m, credentials, authId)
    case SendsPlayServer(m, index, ipv4, authId) => ValidHome(p, m); PlayServer(p, m, index, ipv4, authId)
    case SendsPlayCharacter(m) => ValidHome(p, m); PlayCharacter(p, m)
    case Disconnects(m) => ValidHome(p, m); OnDisconnect(p, m)
    case TimesOut(m) => ValidHome(p, m); Gone(p, m)
    case ServerStarts(c, hasSerial) => OnStart(p, c, hasSerial)
    case ServerSendsCharList(c, saved, reconnecting) => OnCharList(p, c, saved, reconnecting)
    case ServerSendsServerList(c, wellFormed, ordered, reconnecting) => OnServerList(p, c, wellFormed, ordered, reconnecting)
    case ServerRelays(c, reconnecting) => OnRelay(p, c, reconnecting)
    case ServerDisconnects(c) => ServerGone(p, c)
    case ConnectEnds(c, success) => WithConnection(p, c, p.connections[c].(connecting := false, connected := success))
    case Reconnects(c) => WithConnection(p, c, p.connections[c].(connecting := true, connected := false))
  }

  lemma ValidStep(p: Proxy, e: Event)
    requires Valid(p) && Possible(p, e)
    ensures Valid(Step(p, e))
  {
    match e
    case Accepts => ValidAccepted(p);
    case SendsAccountLogin(m, credentials) => ValidAccountLogin(p, m, credentials);
    case SendsGameLogin(m, credentials, authId) => ValidGameLogin(p, m, credentials, authId);
    case SendsPlayServer(m, index, ipv4, authId) => ValidPlayServer(p, m, index, ipv4, authId);
    case SendsPlayCharacter(m) => ValidPlayCharacter(p, m);
    case Disconnects(m) => ValidOnDisconnect(p, m);
    case TimesOut(m) => ValidGone(p, m);
    case ServerStarts(c, hasSerial) => ValidOnStart(p, c, hasSerial);
    case ServerSendsCharList(c, saved, reconnecting) => ValidOnCharList(p, c, saved, reconnecting);
    case ServerSendsServerList(c, wellFormed, ordered, reconnecting) => ValidOnServerList(p, c, wellFormed, ordered, reconnecting);
    case ServerRelays(c, reconnecting) =>
      ValidServerGone(p, c);
      ValidLink(p, c, true, false);
    case ServerDisconnects(c) => ValidServerGone(p, c);
    case ConnectEnds(c, success) => ValidLink(p, c, false, success);
    case Reconnects(c) => ValidLink(p, c, true, false);
  }

  /** A list of events, each of which can happen when it does. */
  ghost predicate PossibleRun(p: Proxy, events: seq<Event>)
    requires Valid(p)
    decreases |events|
  {
    events != [] ==> Possible(p, events[0]) && (ValidStep(p, events[0]); PossibleRun(Step(p, events[0]), events[1..]))
  }

  ghost function Run(p: Proxy, events: seq<Event>): Proxy
    requires Valid(p) && PossibleRun(p, events)
    decreases |events|
  {
    if events == [] then p else ValidStep(p, events[0]); Run(Step(p, events[0]), events[1..])
  }

  /** Every run keeps the rules: each client is on one connection, which knows it and
      whose credentials it was let in with; who has not chosen a game server is
      alone. */
  lemma {:induction false} ValidRun(p: Proxy, events: seq<Event>)
    requires Valid(p) && PossibleRun(p, events)
    ensures Valid(Run(p, events))
    decreases |events|
  {
    if events != [] {
      ValidStep(p, events[0]);
      ValidRun(Step(p, events[0]), events[1..]);
    }
  }

  lemma ValidInitial(config: Config)
    ensures Valid(Initial(config))
  {
  }
}
