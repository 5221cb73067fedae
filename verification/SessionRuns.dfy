/** What holds of whole runs of login sessions. */
module SessionRuns {
  import opened Wrappers
  import opened Session

  // ---- One client acts ----

  /** What a client has presented is as before, or it was checked. */
  ghost predicate Kept(a: Client, b: Client) {
    (b.presented == a.presented && b.checked == a.checked) || (b.presented != None && b.presented == b.checked)
  }

  /** An event of client m changes no other client, though others may be deleted;
      m itself does not go back to an earlier phase and keeps its socket, and
      unless it was redirected, nothing that it presents goes unchecked. */
  ghost predicate Acts(p: Proxy, p': Proxy, m: nat) {
    && p'.nextId == p.nextId
    && (forall k :: k in p'.clients && k != m ==> k in p.clients && p'.clients[k] == p.clients[k])
    && (m in p'.clients ==>
          && m in p.clients && Rank(p.clients[m].phase) <= Rank(p'.clients[m].phase)
          && p'.clients[m].socket == p.clients[m].socket
          && (p.clients[m].phase == RELAY_SERVER || Kept(p.clients[m], p'.clients[m])))
  }

  lemma ActsTrans(p: Proxy, q: Proxy, r: Proxy, m: nat)
    requires Acts(p, q, m) && Acts(q, r, m) && (m in q.clients ==> q.clients[m].phase != RELAY_SERVER)
    ensures Acts(p, r, m)
  {
  }

  lemma ActsWithout(p: Proxy, p': Proxy, m: nat, gone: nat)
    requires p'.clients == p.clients - {gone} && p'.nextId == p.nextId
    ensures Acts(p, p', m)
  {
  }

  lemma ActsKicked(p: Proxy, m: nat)
    requires Valid(p) && m in p.clients
    ensures Of(p, m) in p.connections && Acts(p, Kicked(p, m), m)
  {
    ValidKicked(p, m);
    ActsWithout(p, Kicked(p, m), m, m);
  }

  lemma ActsGone(p: Proxy, m: nat)
    requires Valid(p) && m in p.clients
    ensures Of(p, m) in p.connections && Acts(p, Gone(p, m), m)
  {
    ValidGone(p, m);
    ActsWithout(p, Gone(p, m), m, m);
  }

  lemma ActsEntered(p: Proxy, m: nat)
    requires m in p.clients && p.clients[m].connection != None && Of(p, m) in p.connections
    requires p.clients[m].phase == GAME_LOGIN
    ensures Acts(p, Entered(p, m), m)
  {
  }

  lemma ActsAnswered(p: Proxy, m: nat, credentials: Login)
    requires Valid(p) && m in p.clients && p.clients[m].phase == ACCOUNT_LOGIN
    ensures Of(p, m) in p.connections && Acts(p, Answered(p, m, credentials), m)
  {
    ActsKicked(p, m);
    if FindAttach(p, p.order, credentials) != None {
      ActsListed(p, m);
    }
  }

  lemma ActsListed(p: Proxy, m: nat)
    requires m in p.clients && p.clients[m].phase == ACCOUNT_LOGIN
    ensures Acts(p, WithClient(p, m, p.clients[m].(phase := SERVER_LIST)), m)
  {
  }

  lemma ActsIdentified(p: Proxy, m: nat, credentials: Login)
    requires m in p.clients && p.clients[m].connection != None && Of(p, m) in p.connections
    requires p.clients[m].phase == INIT
    ensures Acts(p, Identified(p, m, credentials), m)
  {
  }

  lemma ActsAccountLogin(p: Proxy, m: nat, credentials: Login)
    requires Valid(p) && m in p.clients
    ensures Of(p, m) in p.connections && Acts(p, AccountLogin(p, m, credentials), m)
  {
    ActsKicked(p, m);
    if p.clients[m].phase == INIT {
      var p1 := Identified(p, m, credentials);
      ActsIdentified(p, m, credentials);
      ValidIdentified(p, m, credentials);
      ActsAnswered(p1, m, credentials);
      ActsTrans(p, p1, Answered(p1, m, credentials), m);
    }
  }

  lemma ActsMoved(p: Proxy, m: nat, d: nat, client: Client)
    requires CanMove(p, m, d) && Rank(p.clients[m].phase) <= Rank(client.phase) && client.socket == p.clients[m].socket
    requires Kept(p.clients[m], client)
    ensures Acts(p, Moved(p, m, d, client), m)
  {
    MovedIs(p, m, d, client);
  }

  lemma ActsReplaced(p: Proxy, m: nat, zombie: nat, credentials: Login)
    requires Valid(p) && m in p.clients && p.clients[m].phase == INIT
    requires zombie in p.clients && p.clients[zombie].phase == RELAY_SERVER
    requires Of(p, zombie) in p.connections && Same(credentials, p.connections[Of(p, zombie)].credentials)
    ensures Of(p, m) in p.connections && Acts(p, Replaced(p, m, zombie, credentials), m)
  {
    CanReplace(p, m, zombie);
    var client := p.clients[m].(phase := GAME_LOGIN, checked := Some(credentials), presented := Some(credentials));
    ActsMoved(p, m, Of(p, zombie), client);
    ValidTakenOver(p, m, zombie, credentials);
    var p1 := TakenOver(p, m, zombie, credentials);
    ValidReaped(p1, zombie);
    var p2 := Deleted(Detached(p1, zombie), zombie);
    ReapedKeeps(p1, p2, m, zombie);
    ActsWithout(p1, p2, m, zombie);
    ValidHome(p2, m);
    ActsEntered(p2, m);
    ActsTrans(p, p1, p2, m);
    ActsTrans(p, p2, Entered(p2, m), m);
    assert Replaced(p, m, zombie, credentials) == Entered(p2, m);
  }

  lemma ActsRelayLogin(p: Proxy, m: nat, credentials: Login)
    requires m in p.clients && p.clients[m].connection != None && Of(p, m) in p.connections
    requires p.clients[m].phase == RELAY_SERVER
    ensures var client := p.clients[m].(phase := GAME_LOGIN, presented := Some(credentials));
            Acts(p, Entered(WithClient(p, m, client), m), m)
  {
    var p1 := WithClient(p, m, p.clients[m].(phase := GAME_LOGIN, presented := Some(credentials)));
    ActsEntered(p1, m);
    ActsTrans(p, p1, Entered(p1, m), m);
  }

  lemma ActsRedirectedLogin(p: Proxy, m: nat, credentials: Login, authId: nat)
    requires Valid(p) && m in p.clients && p.clients[m].phase == INIT
    requires FindZombie(p, p.order, credentials, authId) != None
    ensures Of(p, m) in p.connections
    ensures Acts(p, Replaced(p, m, FindZombie(p, p.order, credentials, authId).value, credentials), m)
  {
    ZombieConnection(p, credentials, authId);
    ActsReplaced(p, m, FindZombie(p, p.order, credentials, authId).value, credentials);
  }

  lemma ActsGameLogin(p: Proxy, m: nat, credentials: Login, authId: nat)
    requires Valid(p) && m in p.clients
    ensures Of(p, m) in p.connections && Acts(p, GameLogin(p, m, credentials, authId), m)
  {
    ActsKicked(p, m);
    if p.clients[m].phase == RELAY_SERVER {
      ActsRelayLogin(p, m, credentials);
    } else if p.clients[m].phase == INIT && FindZombie(p, p.order, credentials, authId) != None {
      ActsRedirectedLogin(p, m, credentials, authId);
    }
  }

  lemma ActsRedirected(p: Proxy, m: nat, ipv4: bool, authId: nat)
    requires m in p.clients && p.clients[m].phase == PLAY_SERVER
    ensures Acts(p, Redirected(p, m, ipv4, authId), m)
  {
  }

  lemma ActsAttached(p: Proxy, m: nat, d: nat, p': Proxy)
    requires Valid(p) && m in p.clients && p.clients[m].phase == PLAY_SERVER
    requires Of(p, m) in p.connections && p.connections[Of(p, m)].servers == [m] && IsOther(p, d, Of(p, m))
    requires Acts(Moved(p, m, d, p.clients[m]), p', m)
    ensures Acts(p, p', m)
  {
    CanAttachTo(p, m, d);
    ActsMoved(p, m, d, p.clients[m]);
    ActsTrans(p, Moved(p, m, d, p.clients[m]), p', m);
  }

  lemma ActsInGame(p: Proxy, m: nat)
    requires m in p.clients && p.clients[m].phase == PLAY_SERVER
    ensures Acts(p, WithClient(p, m, p.clients[m].(phase := IN_GAME)), m)
  {
  }

  lemma ArrivedPhase(p: Proxy, m: nat, d: nat)
    requires Valid(p) && m in p.clients && p.clients[m].phase == PLAY_SERVER
    requires Of(p, m) in p.connections && p.connections[Of(p, m)].servers == [m] && IsOther(p, d, Of(p, m))
    ensures var p1 := Moved(p, m, d, p.clients[m]); m in p1.clients && p1.clients[m].phase == PLAY_SERVER
  {
    CanAttachTo(p, m, d);
    MovedIs(p, m, d, p.clients[m]);
  }

  lemma ActsArrived(p: Proxy, m: nat, d: nat, ipv4: bool, authId: nat)
    requires Valid(p) && m in p.clients && p.clients[m].phase == PLAY_SERVER
    requires Of(p, m) in p.connections && p.connections[Of(p, m)].servers == [m] && IsOther(p, d, Of(p, m))
    ensures var p1 := Moved(p, m, d, p.clients[m]);
            && m in p1.clients && Acts(p, Redirected(p1, m, ipv4, authId), m)
            && Acts(p, WithClient(p1, m, p1.clients[m].(phase := IN_GAME)), m)
  {
    ArrivedPhase(p, m, d);
    var p1 := Moved(p, m, d, p.clients[m]);
    ActsRedirected(p1, m, ipv4, authId);
    ActsAttached(p, m, d, Redirected(p1, m, ipv4, authId));
    ActsInGame(p1, m);
    ActsAttached(p, m, d, WithClient(p1, m, p1.clients[m].(phase := IN_GAME)));
  }

  lemma ActsPlaced(p: Proxy, m: nat, index: nat, ipv4: bool, authId: nat)
    requires Valid(p) && m in p.clients && p.clients[m].phase == PLAY_SERVER
    requires Of(p, m) in p.connections && p.connections[Of(p, m)].servers == [m]
    ensures Acts(p, Placed(p, m, index, ipv4, authId), m)
  {
    var other := FindOther(p, p.order, Of(p, m));
    if other != None {
      ActsArrived(p, m, other.value, ipv4, authId);
    } else {
      ActsUnattached(p, m, index, ipv4, authId);
    }
  }

  lemma ActsUnattached(p: Proxy, m: nat, index: nat, ipv4: bool, authId: nat)
    requires Valid(p) && m in p.clients && p.clients[m].phase == PLAY_SERVER
    requires Of(p, m) in p.connections && FindOther(p, p.order, Of(p, m)) == None
    ensures Acts(p, Placed(p, m, index, ipv4, authId), m)
  {
    ActsKicked(p, m);
    ActsRedirected(p, m, ipv4, authId);
  }

  lemma ActsChosen(p: Proxy, m: nat, index: nat)
    requires m in p.clients && p.clients[m].connection != None && Of(p, m) in p.connections
    requires p.clients[m].phase == SERVER_LIST
    ensures Acts(p, Chosen(p, m, index), m)
  {
  }

  lemma ActsPlayServer(p: Proxy, m: nat, index: nat, ipv4: bool, authId: nat)
    requires Valid(p) && m in p.clients
    ensures Of(p, m) in p.connections && Acts(p, PlayServer(p, m, index, ipv4, authId), m)
  {
    ActsKicked(p, m);
    if p.clients[m].phase == SERVER_LIST {
      var p1 := Chosen(p, m, index);
      ActsChosen(p, m, index);
      ValidChosen(p, m, index);
      ActsPlaced(p1, m, index, ipv4, authId);
      ActsTrans(p, p1, Placed(p1, m, index, ipv4, authId), m);
    }
  }

  lemma ActsPlayCharacter(p: Proxy, m: nat)
    requires Valid(p) && m in p.clients
    ensures Of(p, m) in p.connections && Acts(p, PlayCharacter(p, m), m)
  {
    ValidHome(p, m);
    if p.clients[m].phase == CHAR_LIST {
      ActsChooses(p, m);
    } else {
      ActsKicked(p, m);
    }
  }

  lemma ActsChooses(p: Proxy, m: nat)
    requires m in p.clients && p.clients[m].phase == CHAR_LIST
    ensures Acts(p, WithClient(p, m, p.clients[m].(phase := PLAY_CHAR)), m)
  {
  }

  /** The client that sends a packet. */
  ghost predicate IsPacketOf(e: Event, m: nat) {
    match e
    case SendsAccountLogin(k, _) => k == m
    case SendsGameLogin(k, _, _) => k == m
    case SendsPlayServer(k, _, _, _) => k == m
    case SendsPlayCharacter(k) => k == m
    case _ => false
  }

  /** A packet of one client changes no other client. */
  lemma ActsStep(p: Proxy, e: Event, m: nat)
    requires Valid(p) && Possible(p, e) && IsPacketOf(e, m)
    ensures Acts(p, Step(p, e), m)
  {
    match e
    case SendsAccountLogin(_, credentials) => ActsAccountLogin(p, m, credentials);
    case SendsGameLogin(_, credentials, authId) => ActsGameLogin(p, m, credentials, authId);
    case SendsPlayServer(_, index, ipv4, authId) => ActsPlayServer(p, m, index, ipv4, authId);
    case SendsPlayCharacter(_) => ActsPlayCharacter(p, m);
  }

  // ---- The login never goes backwards ----

  /** No client comes back, and none has gone back to an earlier phase. */
  ghost predicate Later(p: Proxy, p': Proxy) {
    && p.nextId <= p'.nextId
    && (forall m :: m in p'.clients && m < p.nextId ==>
          m in p.clients && Rank(p.clients[m].phase) <= Rank(p'.clients[m].phase))
  }

  lemma LaterTrans(p: Proxy, q: Proxy, r: Proxy)
    requires Later(p, q) && Later(q, r)
    ensures Later(p, r)
  {
  }

  lemma LaterActs(p: Proxy, p': Proxy, m: nat)
    requires Acts(p, p', m)
    ensures Later(p, p')
  {
  }

  lemma LaterPromoted(p: Proxy, c: nat, from: set<Phase>, to: Phase)
    requires c in p.connections && forall f :: f in from ==> Rank(f) <= Rank(to)
    ensures Later(p, Promoted(p, c, from, to))
  {
  }

  lemma LaterServer(p: Proxy, e: Event)
    requires Valid(p) && Possible(p, e)
    requires e.ServerStarts? || e.ServerSendsCharList? || e.ServerSendsServerList?
    ensures Later(p, Step(p, e))
  {
    match e
    case ServerStarts(c, hasSerial) => LaterOnStart(p, c, hasSerial);
    case ServerSendsCharList(c, saved, reconnecting) => LaterOnCharList(p, c, saved, reconnecting);
    case ServerSendsServerList(c, wellFormed, ordered, reconnecting) =>
      LaterServerGone(p, c);
      LaterPromoted(p, c, {ACCOUNT_LOGIN}, SERVER_LIST);
  }

  lemma LaterOnStart(p: Proxy, c: nat, hasSerial: bool)
    requires c in p.connections
    ensures Later(p, OnStart(p, c, hasSerial))
  {
    LaterPromoted(p, c, ANY_PHASE, IN_GAME);
  }

  lemma LaterOnCharList(p: Proxy, c: nat, saved: bool, reconnecting: bool)
    requires c in p.connections
    ensures Later(p, OnCharList(p, c, saved, reconnecting))
  {
    var p1 := WithConnection(p, c, p.connections[c].(charList := p.connections[c].charList || saved));
    LaterPromoted(p1, c, {GAME_LOGIN, PLAY_SERVER}, CHAR_LIST);
  }

  lemma LaterServerGone(p: Proxy, c: nat)
    requires c in p.connections
    ensures Later(p, ServerGone(p, c))
  {
  }

  lemma LaterClient(p: Proxy, e: Event)
    requires Valid(p) && Possible(p, e)
    requires e.Disconnects? || e.TimesOut? || e.Accepts?
    ensures Later(p, Step(p, e))
  {
    match e
    case Accepts => LaterAccepted(p);
    case Disconnects(m) => LaterOnDisconnect(p, m);
    case TimesOut(m) =>
      ActsGone(p, m);
      LaterActs(p, Gone(p, m), m);
  }

  lemma LaterAccepted(p: Proxy)
    ensures Later(p, Accepted(p))
  {
  }

  lemma LaterOnDisconnect(p: Proxy, m: nat)
    requires Valid(p) && m in p.clients
    ensures Of(p, m) in p.connections && Later(p, OnDisconnect(p, m))
  {
    ActsGone(p, m);
    LaterActs(p, Gone(p, m), m);
    if p.clients[m].phase == RELAY_SERVER {
      assert Later(p, WithClient(p, m, p.clients[m].(socket := false)));
    }
  }

  lemma LaterLink(p: Proxy, e: Event)
    requires Valid(p) && Possible(p, e)
    requires e.ServerRelays? || e.ServerDisconnects? || e.ConnectEnds? || e.Reconnects?
    ensures Later(p, Step(p, e))
  {
  }

  lemma LaterStep(p: Proxy, e: Event)
    requires Valid(p) && Possible(p, e)
    ensures Later(p, Step(p, e))
  {
    if m :| IsPacketOf(e, m) {
      ActsStep(p, e, m);
      LaterActs(p, Step(p, e), m);
    } else if e.Disconnects? || e.TimesOut? || e.Accepts? {
      LaterClient(p, e);
    } else if e.ServerStarts? || e.ServerSendsCharList? || e.ServerSendsServerList? {
      LaterServer(p, e);
    } else {
      LinkEvent(e);
      LaterLink(p, e);
    }
  }

  lemma LinkEvent(e: Event)
    requires forall m :: !IsPacketOf(e, m)
    requires !e.Disconnects? && !e.TimesOut? && !e.Accepts?
    requires !e.ServerStarts? && !e.ServerSendsCharList? && !e.ServerSendsServerList?
    ensures e.ServerRelays? || e.ServerDisconnects? || e.ConnectEnds? || e.Reconnects?
  {
    match e
    case SendsAccountLogin(m, _) => assert IsPacketOf(e, m);
    case SendsGameLogin(m, _, _) => assert IsPacketOf(e, m);
    case SendsPlayServer(m, _, _, _) => assert IsPacketOf(e, m);
    case SendsPlayCharacter(m) => assert IsPacketOf(e, m);
    case _ =>
  }

  /** In every run, the phase of a client never goes back, and a client that has
      gone does not come back. */
  lemma {:induction false} LaterRun(p: Proxy, events: seq<Event>)
    requires Valid(p) && PossibleRun(p, events)
    ensures Later(p, Run(p, events))
    decreases |events|
  {
    if events != [] {
      ValidStep(p, events[0]);
      LaterStep(p, events[0]);
      LaterRun(Step(p, events[0]), events[1..]);
      LaterTrans(p, Step(p, events[0]), Run(p, events));
    }
  }

  // ---- What the program asserts ----

  /** A client that logs in is not connected to a server yet, so it is never
      refused for that; the connection it could be attached to is not its own. */
  lemma LoginAssertions(p: Proxy, m: nat, credentials: Login)
    requires Valid(p) && m in p.clients && p.clients[m].phase == INIT
    ensures Of(p, m) in p.connections && !p.connections[Of(p, m)].connected
    ensures var p' := Identified(p, m, credentials);
            var other := FindAttach(p', p'.order, credentials);
            other != None ==> other.value != Of(p, m)
  {
    assert ClientFits(p, m);
  }

  /** A client that chooses a game server is alone, and with a configured list of
      servers it is not connected. */
  lemma PlayServerAssertions(p: Proxy, m: nat)
    requires Valid(p) && m in p.clients && p.clients[m].phase == SERVER_LIST
    ensures Of(p, m) in p.connections && p.connections[Of(p, m)].servers == [m]
    ensures p.config.gameServers > 0 ==> !p.connections[Of(p, m)].connected
  {
    assert ClientFits(p, m);
  }

  /** Lists are sent to clients with a socket only. */
  lemma SocketAssertions(p: Proxy, c: nat, m: nat)
    requires Valid(p) && c in p.connections && m in p.connections[c].servers
    ensures m in p.clients && (p.clients[m].phase in {ACCOUNT_LOGIN, GAME_LOGIN, PLAY_SERVER} ==> p.clients[m].socket)
  {
    assert Members(p, c);
    assert ClientFits(p, m);
  }

  /** Attaching a client to another connection drops nobody and changes nobody
      else. */
  lemma AttachDropsNobody(p: Proxy, m: nat, index: nat, ipv4: bool, authId: nat)
    requires Valid(p) && m in p.clients && p.clients[m].phase == SERVER_LIST && Of(p, m) in p.connections
    requires FindOther(Chosen(p, m, index), p.order, Of(p, m)) != None
    ensures var p' := PlayServer(p, m, index, ipv4, authId);
            && (forall k :: k in p'.clients <==> k in p.clients)
            && (forall k :: k in p.clients && k != m ==> p'.clients[k] == p.clients[k])
            && Of(p, m) !in p'.connections
  {
    ValidChosen(p, m, index);
    PlacedDropsNobody(Chosen(p, m, index), m, index, ipv4, authId);
  }

  lemma PlacedDropsNobody(p: Proxy, m: nat, index: nat, ipv4: bool, authId: nat)
    requires Valid(p) && m in p.clients && p.clients[m].phase == PLAY_SERVER
    requires Of(p, m) in p.connections && p.connections[Of(p, m)].servers == [m]
    requires FindOther(p, p.order, Of(p, m)) != None
    ensures var p' := Placed(p, m, index, ipv4, authId);
            && (forall k :: k in p'.clients <==> k in p.clients)
            && (forall k :: k in p.clients && k != m ==> p'.clients[k] == p.clients[k])
            && Of(p, m) !in p'.connections
  {
    var d := FindOther(p, p.order, Of(p, m)).value;
    CanAttachTo(p, m, d);
    MovedIs(p, m, d, p.clients[m]);
  }

  // ---- Credentials ----

  /** What every client has presented last are its connection's credentials. */
  ghost predicate Matches(p: Proxy) {
    forall m :: m in p.clients && p.clients[m].presented != None ==>
      && p.clients[m].connection != None && Of(p, m) in p.connections
      && Same(p.clients[m].presented.value, p.connections[Of(p, m)].credentials)
  }

  ghost predicate Honest(client: Client) {
    client.presented != None ==> client.checked != None && Same(client.presented.value, client.checked.value)
  }

  ghost predicate AllHonest(p: Proxy) {
    forall m :: m in p.clients ==> Honest(p.clients[m])
  }

  lemma HonestMeans(p: Proxy, m: nat)
    requires Valid(p) && m in p.clients && p.clients[m].presented != None
    ensures Of(p, m) in p.connections && p.clients[m].checked != None
    ensures Same(p.clients[m].presented.value, p.clients[m].checked.value)
            <==> Same(p.clients[m].presented.value, p.connections[Of(p, m)].credentials)
  {
    assert ClientFits(p, m);
    var a, b, c := p.clients[m].presented.value, p.clients[m].checked.value, p.connections[Of(p, m)].credentials;
    SameIsEquivalence(a, b, c);
    SameIsEquivalence(b, c, a);
    SameIsEquivalence(a, c, b);
  }

  lemma MatchesMeans(p: Proxy)
    requires Valid(p)
    ensures Matches(p) <==> AllHonest(p)
  {
    forall m | m in p.clients && p.clients[m].presented != None
      ensures Of(p, m) in p.connections && p.clients[m].checked != None
      ensures Same(p.clients[m].presented.value, p.clients[m].checked.value)
              <==> Same(p.clients[m].presented.value, p.connections[Of(p, m)].credentials)
    {
      HonestMeans(p, m);
    }
  }

  /** A redirected client logs in again on its old socket with other credentials. */
  ghost predicate Unchecked(p: Proxy, e: Event)
    requires Possible(p, e)
  {
    && e.SendsGameLogin? && p.config.razorWorkaround && p.clients[e.client].phase == RELAY_SERVER
    && p.clients[e.client].connection != None && Of(p, e.client) in p.connections
    && !Same(e.credentials, p.connections[Of(p, e.client)].credentials)
  }

  lemma RelayLoginIs(p: Proxy, m: nat, credentials: Login, authId: nat)
    requires Valid(p) && m in p.clients && p.clients[m].phase == RELAY_SERVER && p.config.razorWorkaround
    ensures Of(p, m) in p.connections
    ensures var p' := GameLogin(p, m, credentials, authId);
            && (forall k :: k in p'.clients <==> k in p.clients)
            && (forall k :: k in p.clients && k != m ==> p'.clients[k] == p.clients[k])
            && p'.clients[m].presented == Some(credentials) && p'.clients[m].checked == p.clients[m].checked
  {
    ValidHome(p, m);
  }

  lemma HonestRelay(p: Proxy, m: nat, credentials: Login, authId: nat)
    requires Valid(p) && AllHonest(p) && m in p.clients && p.clients[m].phase == RELAY_SERVER && p.config.razorWorkaround
    ensures Of(p, m) in p.connections
    ensures AllHonest(GameLogin(p, m, credentials, authId)) <==> Same(credentials, p.connections[Of(p, m)].credentials)
  {
    assert ClientFits(p, m);
    var b, c := p.clients[m].checked.value, p.connections[Of(p, m)].credentials;
    SameIsEquivalence(credentials, b, c);
    SameIsEquivalence(b, c, credentials);
    SameIsEquivalence(credentials, c, b);
    RelayLoginIs(p, m, credentials, authId);
    var p' := GameLogin(p, m, credentials, authId);
    assert Honest(p'.clients[m]) <==> Same(credentials, p.clients[m].checked.value);
  }

  lemma HonestActs(p: Proxy, p': Proxy, m: nat)
    requires AllHonest(p) && Acts(p, p', m) && (m in p.clients && p.clients[m].phase == RELAY_SERVER ==> m !in p'.clients)
    ensures AllHonest(p')
  {
    forall k | k in p'.clients ensures Honest(p'.clients[k]) {
      if k == m && p'.clients[m].presented != None && p'.clients[m].presented == p'.clients[m].checked {
        var a := p'.clients[m].presented.value;
        SameIsEquivalence(a, a, a);
      }
    }
  }

  lemma RedirectedIsKicked(p: Proxy, e: Event, m: nat)
    requires Valid(p) && Possible(p, e) && IsPacketOf(e, m) && p.clients[m].phase == RELAY_SERVER
    requires !(e.SendsGameLogin? && p.config.razorWorkaround)
    ensures m !in Step(p, e).clients
  {
    ValidKicked(p, m);
  }

  lemma HonestPacket(p: Proxy, e: Event, m: nat)
    requires Valid(p) && AllHonest(p) && Possible(p, e) && IsPacketOf(e, m)
    ensures AllHonest(Step(p, e)) <==> !Unchecked(p, e)
  {
    if e.SendsGameLogin? && p.config.razorWorkaround && p.clients[m].phase == RELAY_SERVER {
      HonestRelay(p, m, e.credentials, e.authId);
    } else {
      if p.clients[m].phase == RELAY_SERVER {
        RedirectedIsKicked(p, e, m);
      }
      ActsStep(p, e, m);
      HonestActs(p, Step(p, e), m);
    }
  }

  lemma HonestClient(p: Proxy, e: Event)
    requires Valid(p) && AllHonest(p) && Possible(p, e) && (e.Disconnects? || e.TimesOut? || e.Accepts?)
    ensures AllHonest(Step(p, e))
  {
    match e
    case Disconnects(m) => ValidGone(p, m);
    case TimesOut(m) => ValidGone(p, m);
    case Accepts =>
  }

  lemma HonestServer(p: Proxy, e: Event)
    requires Valid(p) && AllHonest(p) && Possible(p, e)
    requires e.ServerStarts? || e.ServerSendsCharList? || e.ServerSendsServerList?
    ensures AllHonest(Step(p, e))
  {
    match e
    case ServerStarts(c, _) => HonestPromoted(p, c, ANY_PHASE, IN_GAME);
    case ServerSendsCharList(c, saved, _) =>
      var p1 := WithConnection(p, c, p.connections[c].(charList := p.connections[c].charList || saved));
      HonestPromoted(p1, c, {GAME_LOGIN, PLAY_SERVER}, CHAR_LIST);
    case ServerSendsServerList(c, _, _, _) =>
      HonestGone(p, c);
      HonestPromoted(p, c, {ACCOUNT_LOGIN}, SERVER_LIST);
  }

  lemma HonestPromoted(p: Proxy, c: nat, from: set<Phase>, to: Phase)
    requires AllHonest(p) && c in p.connections
    ensures AllHonest(Promoted(p, c, from, to))
  {
  }

  lemma HonestGone(p: Proxy, c: nat)
    requires AllHonest(p) && c in p.connections
    ensures AllHonest(ServerGone(p, c))
  {
  }

  lemma HonestLink(p: Proxy, e: Event)
    requires Valid(p) && AllHonest(p) && Possible(p, e)
    requires e.ServerRelays? || e.ServerDisconnects? || e.ConnectEnds? || e.Reconnects?
    ensures AllHonest(Step(p, e))
  {
  }

  lemma HonestStep(p: Proxy, e: Event)
    requires Valid(p) && AllHonest(p) && Possible(p, e)
    ensures AllHonest(Step(p, e)) <==> !Unchecked(p, e)
  {
    if m :| IsPacketOf(e, m) {
      HonestPacket(p, e, m);
    } else if e.Disconnects? || e.TimesOut? || e.Accepts? {
      HonestClient(p, e);
    } else if e.ServerStarts? || e.ServerSendsCharList? || e.ServerSendsServerList? {
      HonestServer(p, e);
    } else {
      LinkEvent(e);
      HonestLink(p, e);
    }
  }

  /** The exact condition: what a client has presented are its connection's
      credentials until a redirected client logs in on its old socket with
      others. */
  lemma MatchesStep(p: Proxy, e: Event)
    requires Valid(p) && Matches(p) && Possible(p, e)
    ensures Valid(Step(p, e)) && (Matches(Step(p, e)) <==> !Unchecked(p, e))
  {
    MatchesMeans(p);
    HonestStep(p, e);
    ValidStep(p, e);
    MatchesMeans(Step(p, e));
  }

  /** In all states of a run the credentials match. */
  ghost predicate MatchesThroughout(p: Proxy, events: seq<Event>)
    requires Valid(p) && PossibleRun(p, events)
    decreases |events|
  {
    Matches(p) && (events != [] ==> (ValidStep(p, events[0]); MatchesThroughout(Step(p, events[0]), events[1..])))
  }

  ghost predicate EverUnchecked(p: Proxy, events: seq<Event>)
    requires Valid(p) && PossibleRun(p, events)
    decreases |events|
  {
    events != [] && (Unchecked(p, events[0]) || (ValidStep(p, events[0]); EverUnchecked(Step(p, events[0]), events[1..])))
  }

  /** So, in a whole run, the credentials always match if and only if that never
      happens. */
  lemma {:induction false} MatchesRun(p: Proxy, events: seq<Event>)
    requires Valid(p) && PossibleRun(p, events) && Matches(p)
    ensures MatchesThroughout(p, events) <==> !EverUnchecked(p, events)
    decreases |events|
  {
    if events != [] {
      var p1 := Step(p, events[0]);
      MatchesStep(p, events[0]);
      if Matches(p1) {
        MatchesRun(p1, events[1..]);
      } else {
        assert !MatchesThroughout(p1, events[1..]);
      }
    }
  }

  // ---- Placeholders and the start of the game ----

  /** Every client in the game has a socket, so packets can be sent to it. */
  ghost predicate NoGhosts(p: Proxy) {
    forall m :: m in p.clients && p.clients[m].phase == IN_GAME ==> p.clients[m].socket
  }

  ghost predicate HasPlaceholder(p: Proxy, c: nat)
    requires c in p.connections
  {
    exists m :: m in p.connections[c].servers && m in p.clients && !p.clients[m].socket
  }

  lemma GhostsStart(p: Proxy, c: nat, hasSerial: bool)
    requires Valid(p) && NoGhosts(p) && c in p.connections
    ensures NoGhosts(OnStart(p, c, hasSerial)) <==> !HasPlaceholder(p, c)
  {
    var p' := OnStart(p, c, hasSerial);
    assert Members(p, c);
    if HasPlaceholder(p, c) {
      var m :| m in p.connections[c].servers && m in p.clients && !p.clients[m].socket;
      AnyPhase(p.clients[m].phase);
      assert m in p'.clients && p'.clients[m].phase == IN_GAME;
    }
  }

  lemma GhostsPacket(p: Proxy, e: Event, m: nat)
    requires Valid(p) && NoGhosts(p) && Possible(p, e) && IsPacketOf(e, m)
    ensures NoGhosts(Step(p, e))
  {
    ActsStep(p, e, m);
  }

  lemma GhostsClient(p: Proxy, e: Event)
    requires Valid(p) && NoGhosts(p) && Possible(p, e) && (e.Disconnects? || e.TimesOut? || e.Accepts?)
    ensures NoGhosts(Step(p, e))
  {
    match e
    case Disconnects(m) => ValidGone(p, m);
    case TimesOut(m) => ValidGone(p, m);
    case Accepts =>
  }

  lemma GhostsPromoted(p: Proxy, c: nat, from: set<Phase>, to: Phase)
    requires NoGhosts(p) && c in p.connections && to != IN_GAME
    ensures NoGhosts(Promoted(p, c, from, to))
  {
  }

  lemma GhostsServer(p: Proxy, e: Event)
    requires Valid(p) && NoGhosts(p) && Possible(p, e) && (e.ServerSendsCharList? || e.ServerSendsServerList?)
    ensures NoGhosts(Step(p, e))
  {
    match e
    case ServerSendsCharList(c, saved, reconnecting) =>
      var p1 := WithConnection(p, c, p.connections[c].(charList := p.connections[c].charList || saved));
      GhostsPromoted(p1, c, {GAME_LOGIN, PLAY_SERVER}, CHAR_LIST);
    case ServerSendsServerList(c, wellFormed, ordered, reconnecting) =>
      GhostsGone(p, c);
      GhostsPromoted(p, c, {ACCOUNT_LOGIN}, SERVER_LIST);
  }

  lemma GhostsGone(p: Proxy, c: nat)
    requires NoGhosts(p) && c in p.connections
    ensures NoGhosts(ServerGone(p, c))
  {
  }

  lemma GhostsLink(p: Proxy, e: Event)
    requires Valid(p) && NoGhosts(p) && Possible(p, e)
    requires e.ServerRelays? || e.ServerDisconnects? || e.ConnectEnds? || e.Reconnects?
    ensures NoGhosts(Step(p, e))
  {
  }

  /** The exact condition: only a Start packet on a connection with a placeholder
      puts a client without a socket into the game. */
  lemma GhostsStep(p: Proxy, e: Event)
    requires Valid(p) && NoGhosts(p) && Possible(p, e)
    ensures NoGhosts(Step(p, e)) <==> !(e.ServerStarts? && HasPlaceholder(p, e.connection))
  {
    if m :| IsPacketOf(e, m) {
      GhostsPacket(p, e, m);
    } else if e.Disconnects? || e.TimesOut? || e.Accepts? {
      GhostsClient(p, e);
    } else if e.ServerStarts? {
      GhostsStart(p, e.connection, e.hasSerial);
    } else if e.ServerSendsCharList? || e.ServerSendsServerList? {
      GhostsServer(p, e);
    } else {
      LinkEvent(e);
      GhostsLink(p, e);
    }
  }

  /** Without such clients, a placeholder that times out is still waiting for the
      client that it stands for. */
  lemma TimeoutAssertion(p: Proxy, m: nat)
    requires Valid(p) && NoGhosts(p) && m in p.clients && !p.clients[m].socket
    ensures p.clients[m].phase == RELAY_SERVER
  {
    assert ClientFits(p, m);
  }

  // ---- The emulated login server ----

  /** Some client can get past the account login. */
  predicate CanLogIn(config: Config) {
    config.gameServers == 0 && config.loginAddress
  }

  /** Nobody is past the account login, and no connection is in use. */
  ghost predicate Stuck(p: Proxy) {
    && (forall m :: m in p.clients ==> Rank(p.clients[m].phase) <= Rank(ACCOUNT_LOGIN))
    && (forall c :: c in p.connections ==> !p.connections[c].inGame && !p.connections[c].connecting && !p.connections[c].connected)
  }

  lemma StuckOrphaned(p: Proxy, m: nat, keep: bool)
    requires Valid(p) && m in p.clients && Stuck(p)
    ensures Of(p, m) in p.connections
    ensures var p' := Orphaned(Detached(p, m), m, Of(p, m), keep); Stuck(p') && p'.config == p.config
  {
    ValidOrphaned(p, m, keep);
  }

  lemma StuckKicked(p: Proxy, m: nat)
    requires Valid(p) && m in p.clients && Stuck(p)
    ensures Of(p, m) in p.connections && Stuck(Kicked(p, m)) && Kicked(p, m).config == p.config
  {
    StuckOrphaned(p, m, p.config.background);
  }

  lemma StuckGone(p: Proxy, m: nat)
    requires Valid(p) && m in p.clients && Stuck(p)
    ensures Of(p, m) in p.connections && Stuck(Gone(p, m)) && Gone(p, m).config == p.config
  {
    ValidHome(p, m);
    StuckOrphaned(p, m, false);
  }

  lemma StuckIdentified(p: Proxy, m: nat, credentials: Login)
    requires Stuck(p) && m in p.clients && p.clients[m].connection != None && Of(p, m) in p.connections
    ensures Stuck(Identified(p, m, credentials))
  {
  }

  lemma StuckAnswered(p: Proxy, m: nat, credentials: Login)
    requires Valid(p) && m in p.clients && Stuck(p) && !CanLogIn(p.config)
    ensures Of(p, m) in p.connections
    ensures var p' := Answered(p, m, credentials); Stuck(p') && p'.config == p.config
  {
    StuckKicked(p, m);
    assert FindAttach(p, p.order, credentials) == None;
  }

  lemma StuckAccountLogin(p: Proxy, m: nat, credentials: Login)
    requires Valid(p) && m in p.clients && Stuck(p) && !CanLogIn(p.config)
    ensures Of(p, m) in p.connections
    ensures var p' := AccountLogin(p, m, credentials); Stuck(p') && p'.config == p.config
  {
    StuckKicked(p, m);
    if p.clients[m].phase == INIT {
      ValidIdentified(p, m, credentials);
      StuckIdentified(p, m, credentials);
      StuckAnswered(Identified(p, m, credentials), m, credentials);
    }
  }

  lemma StuckGameLogin(p: Proxy, m: nat, credentials: Login, authId: nat)
    requires Valid(p) && m in p.clients && Stuck(p)
    ensures Of(p, m) in p.connections
    ensures var p' := GameLogin(p, m, credentials, authId); Stuck(p') && p'.config == p.config
  {
    StuckKicked(p, m);
    NoZombie(p, credentials, authId);
    assert p.clients[m].phase != RELAY_SERVER;
  }

  lemma NoZombie(p: Proxy, credentials: Login, authId: nat)
    requires Stuck(p)
    ensures FindZombie(p, p.order, credentials, authId) == None
  {
    if FindZombie(p, p.order, credentials, authId) != None {
      assert false;
    }
  }

  lemma StuckPlayServer(p: Proxy, m: nat, index: nat, ipv4: bool, authId: nat)
    requires Valid(p) && m in p.clients && Stuck(p)
    ensures Of(p, m) in p.connections
    ensures var p' := PlayServer(p, m, index, ipv4, authId); Stuck(p') && p'.config == p.config
  {
    StuckKicked(p, m);
  }

  lemma StuckPlayCharacter(p: Proxy, m: nat)
    requires Valid(p) && m in p.clients && Stuck(p)
    ensures Of(p, m) in p.connections && Stuck(PlayCharacter(p, m)) && PlayCharacter(p, m).config == p.config
  {
    StuckKicked(p, m);
  }

  lemma StuckPacket(p: Proxy, e: Event, m: nat)
    requires Valid(p) && Possible(p, e) && Stuck(p) && !CanLogIn(p.config) && IsPacketOf(e, m)
    ensures Stuck(Step(p, e)) && Step(p, e).config == p.config
  {
    match e
    case SendsAccountLogin(_, credentials) => StuckAccountLogin(p, m, credentials);
    case SendsGameLogin(_, credentials, authId) => StuckGameLogin(p, m, credentials, authId);
    case SendsPlayServer(_, index, ipv4, authId) => StuckPlayServer(p, m, index, ipv4, authId);
    case SendsPlayCharacter(_) => StuckPlayCharacter(p, m);
  }

  lemma StuckAccepted(p: Proxy)
    requires Stuck(p)
    ensures Stuck(Accepted(p))
  {
  }

  lemma StuckStep(p: Proxy, e: Event)
    requires Valid(p) && Possible(p, e) && Stuck(p) && !CanLogIn(p.config)
    ensures Stuck(Step(p, e)) && Step(p, e).config == p.config
  {
    if m :| IsPacketOf(e, m) {
      StuckPacket(p, e, m);
    } else if e.Accepts? {
      StuckAccepted(p);
    } else if e.Disconnects? || e.TimesOut? {
      StuckGone(p, e.client);
    } else if e.ServerStarts? || e.ServerSendsCharList? || e.ServerSendsServerList? {
      assert false;
    } else {
      LinkEvent(e);
      assert false;
    }
  }

  /** With a configured list of game servers, no client ever gets past its account
      login: the list is sent, but the client is left in the phase in which its
      choice of a server is refused. */
  lemma {:induction false} NobodyLogsIn(p: Proxy, events: seq<Event>)
    requires Valid(p) && PossibleRun(p, events) && Stuck(p) && !CanLogIn(p.config)
    ensures Stuck(Run(p, events))
    decreases |events|
  {
    if events != [] {
      ValidStep(p, events[0]);
      StuckStep(p, events[0]);
      NobodyLogsIn(Step(p, events[0]), events[1..]);
    }
  }

  // ---- Runs that get somewhere ----

  /** Some run from the start leads to this state. */
  ghost predicate Reached(config: Config, p: Proxy) {
    Valid(Initial(config)) && exists events :: PossibleRun(Initial(config), events) && Run(Initial(config), events) == p
  }

  lemma {:induction false} RunSnoc(p: Proxy, events: seq<Event>, e: Event)
    requires Valid(p) && PossibleRun(p, events) && Possible(Run(p, events), e)
    ensures Valid(Run(p, events))
    ensures PossibleRun(p, events + [e]) && Run(p, events + [e]) == Step(Run(p, events), e)
    decreases |events|
  {
    ValidRun(p, events);
    var all := events + [e];
    ValidStep(p, all[0]);
    if events == [] {
      assert all[1..] == [];
    } else {
      assert all[0] == events[0] && all[1..] == events[1..] + [e];
      RunSnoc(Step(p, events[0]), events[1..], e);
    }
  }

  /** These events lead from the start to the state. */
  ghost predicate RunsTo(config: Config, events: seq<Event>, p: Proxy) {
    Valid(Initial(config)) && PossibleRun(Initial(config), events) && Run(Initial(config), events) == p
  }

  lemma RunsReached(config: Config, events: seq<Event>, p: Proxy)
    requires RunsTo(config, events, p)
    ensures Reached(config, p)
  {
  }

  lemma RunsStart(config: Config)
    ensures RunsTo(config, [], Initial(config))
  {
    ValidInitial(config);
  }

  lemma RunsStep(config: Config, events: seq<Event>, p: Proxy, e: Event)
    requires RunsTo(config, events, p) && Possible(p, e)
    ensures Valid(p) && Valid(Step(p, e)) && RunsTo(config, events + [e], Step(p, e))
  {
    RunSnoc(Initial(config), events, e);
    ValidStep(p, e);
  }

  /** One client, number 0, and its connection, number 1. */
  ghost predicate Alone(p: Proxy, config: Config, credentials: Login, phase: Phase, connecting: bool, connected: bool) {
    && p.config == config && 0 in p.clients && p.clients[0].phase == phase && p.clients[0].socket && p.clients[0].connection == Some(1)
    && p.order == [1] && 1 in p.connections && p.connections[1].servers == [0] && p.connections[1].credentials == credentials
    && p.connections[1].connecting == connecting && p.connections[1].connected == connected
    && !p.connections[1].inGame && !p.connections[1].charList
  }

  lemma AloneAccepted(config: Config) returns (p: Proxy)
    ensures RunsTo(config, [] + [Accepts], p) && Alone(p, config, NO_LOGIN, INIT, false, false)
  {
    RunsStart(config);
    RunsStep(config, [], Initial(config), Accepts);
    p := Accepted(Initial(config));
  }

  lemma AloneLogsIn(config: Config, events: seq<Event>, p: Proxy, credentials: Login) returns (p': Proxy)
    requires RunsTo(config, events, p) && Alone(p, config, NO_LOGIN, INIT, false, false) && CanLogIn(config)
    ensures RunsTo(config, events + [SendsAccountLogin(0, credentials)], p')
    ensures Alone(p', config, credentials, ACCOUNT_LOGIN, true, false)
  {
    RunsStep(config, events, p, SendsAccountLogin(0, credentials));
    p' := AccountLogin(p, 0, credentials);
    var p1 := Identified(p, 0, credentials);
    assert FindAttach(p1, p1.order, credentials) == None;
  }

  lemma AloneConnects(config: Config, events: seq<Event>, p: Proxy, credentials: Login, phase: Phase) returns (p': Proxy)
    requires RunsTo(config, events, p) && Alone(p, config, credentials, phase, true, false)
    ensures RunsTo(config, events + [ConnectEnds(1, true)], p') && Alone(p', config, credentials, phase, false, true)
  {
    RunsStep(config, events, p, ConnectEnds(1, true));
    p' := WithConnection(p, 1, p.connections[1].(connecting := false, connected := true));
  }

  lemma AloneListed(config: Config, events: seq<Event>, p: Proxy, credentials: Login) returns (p': Proxy)
    requires RunsTo(config, events, p) && Alone(p, config, credentials, ACCOUNT_LOGIN, false, true)
    ensures RunsTo(config, events + [ServerSendsServerList(1, true, true, false)], p')
    ensures Alone(p', config, credentials, SERVER_LIST, false, true)
  {
    RunsStep(config, events, p, ServerSendsServerList(1, true, true, false));
    p' := Promoted(p, 1, {ACCOUNT_LOGIN}, SERVER_LIST);
  }

  lemma AloneRedirected(config: Config, events: seq<Event>, p: Proxy, credentials: Login, authId: nat) returns (p': Proxy)
    requires RunsTo(config, events, p) && Alone(p, config, credentials, SERVER_LIST, false, true)
    requires config.razorWorkaround && CanLogIn(config)
    ensures RunsTo(config, events + [SendsPlayServer(0, 0, true, authId)], p')
    ensures Alone(p', config, credentials, RELAY_SERVER, false, true)
  {
    RunsStep(config, events, p, SendsPlayServer(0, 0, true, authId));
    p' := PlayServer(p, 0, 0, true, authId);
    var p1 := Chosen(p, 0, 0);
    assert FindOther(p1, p1.order, 1) == None;
  }

  lemma AloneRelayed(config: Config, events: seq<Event>, p: Proxy, credentials: Login) returns (p': Proxy)
    requires RunsTo(config, events, p) && Alone(p, config, credentials, RELAY_SERVER, false, true)
    ensures RunsTo(config, events + [ServerRelays(1, false)], p') && Alone(p', config, credentials, RELAY_SERVER, true, false)
  {
    RunsStep(config, events, p, ServerRelays(1, false));
    p' := OnRelay(p, 1, false);
  }

  lemma AloneEnters(config: Config, events: seq<Event>, p: Proxy, credentials: Login, authId: nat) returns (p': Proxy)
    requires RunsTo(config, events, p) && Alone(p, config, credentials, RELAY_SERVER, false, true) && config.razorWorkaround
    ensures RunsTo(config, events + [SendsGameLogin(0, credentials, authId)], p')
    ensures Alone(p', config, credentials, GAME_LOGIN, false, true)
  {
    RunsStep(config, events, p, SendsGameLogin(0, credentials, authId));
    p' := GameLogin(p, 0, credentials, authId);
  }

  /** The same with a list of characters. */
  ghost predicate AloneWithList(p: Proxy, config: Config, phase: Phase) {
    && p.config == config && 0 in p.clients && p.clients[0].phase == phase && p.clients[0].socket && p.clients[0].connection == Some(1)
    && 1 in p.connections && p.connections[1].servers == [0] && p.connections[1].connected && p.connections[1].charList
  }

  lemma AloneSeesCharacters(config: Config, events: seq<Event>, p: Proxy, credentials: Login) returns (p': Proxy)
    requires RunsTo(config, events, p) && Alone(p, config, credentials, GAME_LOGIN, false, true)
    ensures RunsTo(config, events + [ServerSendsCharList(1, true, false)], p') && AloneWithList(p', config, CHAR_LIST)
  {
    RunsStep(config, events, p, ServerSendsCharList(1, true, false));
    p' := OnCharList(p, 1, true, false);
  }

  lemma AloneChooses(config: Config, events: seq<Event>, p: Proxy) returns (p': Proxy)
    requires RunsTo(config, events, p) && AloneWithList(p, config, CHAR_LIST)
    ensures RunsTo(config, events + [SendsPlayCharacter(0)], p') && AloneWithList(p', config, PLAY_CHAR)
  {
    RunsStep(config, events, p, SendsPlayCharacter(0));
    p' := PlayCharacter(p, 0);
  }

  lemma AlonePlays(config: Config, events: seq<Event>, p: Proxy) returns (p': Proxy)
    requires RunsTo(config, events, p) && AloneWithList(p, config, PLAY_CHAR)
    ensures RunsTo(config, events + [ServerStarts(1, true)], p') && AloneWithList(p', config, IN_GAME)
  {
    RunsStep(config, events, p, ServerStarts(1, true));
    p' := OnStart(p, 1, true);
    AnyPhase(p.clients[0].phase);
  }

  // ---- A whole login ----

  /** From the first connection into the game, by way of the login server. */
  ghost predicate IsLogin(es: seq<Event>, credentials: Login, authId: nat) {
    && |es| == 11 && es[0] == Accepts && es[1] == SendsAccountLogin(0, credentials)
    && es[2] == ConnectEnds(1, true) && es[3] == ServerSendsServerList(1, true, true, false)
    && es[4] == SendsPlayServer(0, 0, true, authId) && es[5] == ServerRelays(1, false)
    && es[6] == ConnectEnds(1, true) && es[7] == SendsGameLogin(0, credentials, authId)
    && es[8] == ServerSendsCharList(1, true, false) && es[9] == SendsPlayCharacter(0) && es[10] == ServerStarts(1, true)
  }

  /** Such a run. */
  function LoginEvents(credentials: Login, authId: nat): (es: seq<Event>)
    ensures IsLogin(es, credentials, authId)
  {
    [Accepts, SendsAccountLogin(0, credentials), ConnectEnds(1, true), ServerSendsServerList(1, true, true, false),
     SendsPlayServer(0, 0, true, authId), ServerRelays(1, false), ConnectEnds(1, true),
     SendsGameLogin(0, credentials, authId), ServerSendsCharList(1, true, false), SendsPlayCharacter(0), ServerStarts(1, true)]
  }

  /** These events are possible from the start and leave the first client in the phase. */
  ghost predicate LeadsTo(config: Config, events: seq<Event>, phase: Phase) {
    exists p :: RunsTo(config, events, p) && 0 in p.clients && p.clients[0].phase == phase
  }

  lemma PhaseIs(config: Config, es: seq<Event>, k: nat, e: Event, p: Proxy, phase: Phase)
    requires k < |es| && es[k] == e && RunsTo(config, es[..k] + [e], p) && 0 in p.clients && p.clients[0].phase == phase
    ensures RunsTo(config, es[..k + 1], p) && LeadsTo(config, es[..k + 1], phase)
  {
    assert es[..k + 1] == es[..k] + [e];
  }

  lemma LoginToList(config: Config, es: seq<Event>, credentials: Login) returns (p: Proxy)
    requires CanLogIn(config) && |es| >= 4 && es[0] == Accepts && es[1] == SendsAccountLogin(0, credentials)
    requires es[2] == ConnectEnds(1, true) && es[3] == ServerSendsServerList(1, true, true, false)
    ensures RunsTo(config, es[..4], p) && Alone(p, config, credentials, SERVER_LIST, false, true)
    ensures LeadsTo(config, es[..1], INIT) && LeadsTo(config, es[..2], ACCOUNT_LOGIN)
    ensures LeadsTo(config, es[..3], ACCOUNT_LOGIN) && LeadsTo(config, es[..4], SERVER_LIST)
  {
    p := AloneAccepted(config);
    assert es[..0] == [];
    PhaseIs(config, es, 0, Accepts, p, INIT);
    p := AloneLogsIn(config, es[..1], p, credentials);
    PhaseIs(config, es, 1, es[1], p, ACCOUNT_LOGIN);
    p := AloneConnects(config, es[..2], p, credentials, ACCOUNT_LOGIN);
    PhaseIs(config, es, 2, es[2], p, ACCOUNT_LOGIN);
    p := AloneListed(config, es[..3], p, credentials);
    PhaseIs(config, es, 3, es[3], p, SERVER_LIST);
  }

  lemma LoginToEntry(config: Config, es: seq<Event>, p: Proxy, credentials: Login, authId: nat) returns (p': Proxy)
    requires CanLogIn(config) && config.razorWorkaround && |es| >= 8
    requires es[4] == SendsPlayServer(0, 0, true, authId) && es[5] == ServerRelays(1, false)
    requires es[6] == ConnectEnds(1, true) && es[7] == SendsGameLogin(0, credentials, authId)
    requires RunsTo(config, es[..4], p) && Alone(p, config, credentials, SERVER_LIST, false, true)
    ensures RunsTo(config, es[..8], p') && Alone(p', config, credentials, GAME_LOGIN, false, true)
    ensures LeadsTo(config, es[..5], RELAY_SERVER) && LeadsTo(config, es[..6], RELAY_SERVER) && LeadsTo(config, es[..7], RELAY_SERVER)
    ensures LeadsTo(config, es[..8], GAME_LOGIN)
  {
    p' := AloneRedirected(config, es[..4], p, credentials, authId);
    PhaseIs(config, es, 4, es[4], p', RELAY_SERVER);
    p' := AloneRelayed(config, es[..5], p', credentials);
    PhaseIs(config, es, 5, es[5], p', RELAY_SERVER);
    p' := AloneConnects(config, es[..6], p', credentials, RELAY_SERVER);
    PhaseIs(config, es, 6, es[6], p', RELAY_SERVER);
    p' := AloneEnters(config, es[..7], p', credentials, authId);
    PhaseIs(config, es, 7, es[7], p', GAME_LOGIN);
  }

  lemma LoginToGame(config: Config, es: seq<Event>, p: Proxy, credentials: Login)
    requires |es| >= 11 && es[8] == ServerSendsCharList(1, true, false) && es[9] == SendsPlayCharacter(0) && es[10] == ServerStarts(1, true)
    requires RunsTo(config, es[..8], p) && Alone(p, config, credentials, GAME_LOGIN, false, true)
    ensures LeadsTo(config, es[..9], CHAR_LIST) && LeadsTo(config, es[..10], PLAY_CHAR)
    ensures LeadsTo(config, es[..11], IN_GAME)
  {
    var p' := AloneSeesCharacters(config, es[..8], p, credentials);
    PhaseIs(config, es, 8, es[8], p', CHAR_LIST);
    p' := AloneChooses(config, es[..9], p');
    PhaseIs(config, es, 9, es[9], p', PLAY_CHAR);
    p' := AlonePlays(config, es[..10], p');
    PhaseIs(config, es, 10, es[10], p', IN_GAME);
  }

  /** A client goes through all phases of a login with a redirect into the game. */
  lemma WholeLogin(config: Config, es: seq<Event>, credentials: Login, authId: nat)
    requires CanLogIn(config) && config.razorWorkaround && IsLogin(es, credentials, authId)
    ensures LeadsTo(config, es[..1], INIT) && LeadsTo(config, es[..2], ACCOUNT_LOGIN)
    ensures LeadsTo(config, es[..3], ACCOUNT_LOGIN) && LeadsTo(config, es[..4], SERVER_LIST)
    ensures LeadsTo(config, es[..5], RELAY_SERVER) && LeadsTo(config, es[..6], RELAY_SERVER) && LeadsTo(config, es[..7], RELAY_SERVER)
    ensures LeadsTo(config, es[..8], GAME_LOGIN)
    ensures LeadsTo(config, es[..9], CHAR_LIST) && LeadsTo(config, es[..10], PLAY_CHAR)
    ensures LeadsTo(config, es[..11], IN_GAME)
  {
    var p := LoginToList(config, es, credentials);
    var p' := LoginToEntry(config, es, p, credentials, authId);
    LoginToGame(config, es, p', credentials);
  }

  /** Otherwise, with a login server, a client can get past it. */
  lemma SomebodyLogsIn(config: Config, credentials: Login)
    requires CanLogIn(config)
    ensures exists p :: Reached(config, p) && !Stuck(p)
  {
    var es := LoginEvents(credentials, 0);
    var p := LoginToList(config, es, credentials);
    RunsReached(config, es[..4], p);
    assert !Stuck(p);
  }

  lemma AloneUpToRelay(config: Config, credentials: Login) returns (events: seq<Event>, p: Proxy)
    requires CanLogIn(config) && config.razorWorkaround
    ensures RunsTo(config, events, p) && Alone(p, config, credentials, RELAY_SERVER, false, true)
  {
    events := LoginEvents(credentials, 0)[..4];
    p := LoginToList(config, LoginEvents(credentials, 0), credentials);
    p := AloneRedirected(config, events, p, credentials, 0);
    events := events + [SendsPlayServer(0, 0, true, 0)];
  }

  /** The credentials of a client and its connection can differ. */
  lemma CredentialsCanDiffer(config: Config, a: Login, b: Login)
    requires CanLogIn(config) && config.razorWorkaround && !Same(b, a)
    ensures exists p :: Reached(config, p) && !Matches(p)
  {
    var events, p := AloneUpToRelay(config, a);
    var e := SendsGameLogin(0, b, 0);
    RunsStep(config, events, p, e);
    RelayLoginIs(p, 0, b, 0);
    var p' := Step(p, e);
    RunsReached(config, events + [e], p');
    ValidHome(p', 0);
    assert p'.clients[0].presented == Some(b) && Of(p', 0) == 1 && p'.connections[1].credentials == a;
    assert !Matches(p');
  }

  /** A client without a socket can get into the game. */
  lemma GhostsCanAppear(config: Config, credentials: Login)
    requires CanLogIn(config) && config.razorWorkaround
    ensures exists p :: Reached(config, p) && !NoGhosts(p)
  {
    var events, p := AloneUpToRelay(config, credentials);
    RunsStep(config, events, p, Disconnects(0));
    var p1 := WithClient(p, 0, p.clients[0].(socket := false));
    RunsStep(config, events + [Disconnects(0)], p1, ServerStarts(1, true));
    var p2 := OnStart(p1, 1, true);
    RunsReached(config, events + [Disconnects(0)] + [ServerStarts(1, true)], p2);
    assert p2.clients[0].phase == IN_GAME && !p2.clients[0].socket;
    assert !NoGhosts(p2);
  }
}
