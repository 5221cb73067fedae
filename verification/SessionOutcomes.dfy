/** What each event of a login session does, in terms of the state before it: which
    phase a client gets, on which connection it is afterwards, and who is gone. */
module SessionOutcomes {
  import opened Seqs
  import opened Wrappers
  import opened Session

  /** A connection that further clients of its account can join. */
  ghost predicate Joinable(c: Connection, credentials: Login) {
    c.inGame && c.charList && Same(credentials, c.credentials)
  }

  ghost predicate SomeJoinable(p: Proxy, credentials: Login) {
    exists d :: d in p.connections && Joinable(p.connections[d], credentials)
  }

  /** The phase after a game login: straight into a running game, else to the list of
      characters if there is one. */
  ghost function EntryPhase(c: Connection): Phase {
    if c.inGame then IN_GAME else if c.charList then CHAR_LIST else GAME_LOGIN
  }

  // ---- Account login ----

  lemma IdentifiedJoinable(p: Proxy, m: nat, credentials: Login)
    requires Valid(p) && m in p.clients && p.clients[m].phase == INIT
    ensures Of(p, m) in p.connections
    ensures var p1 := Identified(p, m, credentials);
            FindAttach(p1, p1.order, credentials) != None <==> SomeJoinable(p, credentials)
  {
    assert ClientFits(p, m);
    var p1 := Identified(p, m, credentials);
    if SomeJoinable(p, credentials) {
      var d :| d in p.connections && Joinable(p.connections[d], credentials);
      assert d in p1.order && Attachable(p1, d, credentials);
    }
  }

  /** A new client gets the list of a connection that it can join, or the configured
      list, or has to wait for the login server; without any of these, or if it is no
      new client, it is gone. */
  lemma AccountLoginOutcome(p: Proxy, m: nat, credentials: Login)
    requires Valid(p) && m in p.clients
    ensures Of(p, m) in p.connections
    ensures var p', c := AccountLogin(p, m, credentials), Of(p, m);
            var joinable := SomeJoinable(p, credentials);
            if p.clients[m].phase != INIT || p.connections[c].connected
               || (!joinable && p.config.gameServers == 0 && !p.config.loginAddress) then m !in p'.clients
            else
              && m in p'.clients && p'.clients[m].connection == Some(c) && c in p'.connections
              && p'.clients[m].phase == (if joinable then SERVER_LIST else ACCOUNT_LOGIN)
              && p'.clients[m].checked == p'.clients[m].presented == Some(credentials)
              && p'.connections[c].credentials == credentials
              && p'.connections[c].connecting == (!joinable && p.config.gameServers == 0)
  {
    assert ClientFits(p, m);
    ValidKicked(p, m);
    if p.clients[m].phase == INIT && !p.connections[Of(p, m)].connected {
      IdentifiedJoinable(p, m, credentials);
      ValidIdentified(p, m, credentials);
      ValidKicked(Identified(p, m, credentials), m);
    }
  }

  // ---- Game login ----

  /** A redirected client that logs in on its old socket stays where it is. */
  lemma RelayLoginOutcome(p: Proxy, m: nat, credentials: Login, authId: nat)
    requires Valid(p) && m in p.clients && p.clients[m].phase == RELAY_SERVER && p.config.razorWorkaround
    ensures Of(p, m) in p.connections
    ensures var p' := GameLogin(p, m, credentials, authId);
            && p'.connections == p.connections && m in p'.clients
            && p'.clients[m] == p.clients[m].(phase := EntryPhase(p.connections[Of(p, m)]), presented := Some(credentials))
  {
    ValidHome(p, m);
  }

  /** The placeholder that a redirected client has left behind. */
  ghost predicate Waits(p: Proxy, z: nat, credentials: Login, authId: nat) {
    && z in p.clients && p.clients[z].phase == RELAY_SERVER && !p.clients[z].socket && p.clients[z].authId == authId
    && p.clients[z].connection != None && Of(p, z) in p.connections && Same(credentials, p.connections[Of(p, z)].credentials)
  }

  lemma FoundWaits(p: Proxy, credentials: Login, authId: nat)
    requires Valid(p)
    ensures match FindZombie(p, p.order, credentials, authId)
            case None => forall z :: !Waits(p, z, credentials, authId)
            case Some(z) => Waits(p, z, credentials, authId)
  {
    match FindZombie(p, p.order, credentials, authId)
    case None =>
      forall z ensures !Waits(p, z, credentials, authId) {
        if Waits(p, z, credentials, authId) {
          assert ClientFits(p, z);
          assert IsZombie(p, z, authId);
          assert false;
        }
      }
    case Some(z) => ZombieConnection(p, credentials, authId);
  }

  lemma ReplacedOutcome(p: Proxy, m: nat, z: nat, credentials: Login)
    requires Valid(p) && m in p.clients && p.clients[m].phase == INIT
    requires z in p.clients && p.clients[z].phase == RELAY_SERVER
    requires Of(p, z) in p.connections && Same(credentials, p.connections[Of(p, z)].credentials)
    ensures Of(p, m) in p.connections
    ensures var p', c, d := Replaced(p, m, z, credentials), Of(p, m), Of(p, z);
            && z !in p'.clients && c !in p'.connections
            && m in p'.clients && p'.clients[m].connection == Some(d) && d in p'.connections
            && p'.clients[m].phase == EntryPhase(p.connections[d])
            && p'.clients[m].checked == p'.clients[m].presented == Some(credentials)
  {
    CanReplace(p, m, z);
    ValidTakenOver(p, m, z, credentials);
    var client := p.clients[m].(phase := GAME_LOGIN, checked := Some(credentials), presented := Some(credentials));
    MovedIs(p, m, Of(p, z), client);
    var p1 := TakenOver(p, m, z, credentials);
    assert p1.clients[z] == p.clients[z];
    ValidReaped(p1, z);
    var p2 := Deleted(Detached(p1, z), z);
    ReapedKeeps(p1, p2, m, z);
    assert Replaced(p, m, z, credentials) == Entered(p2, m);
  }

  /** A new client takes the place of its placeholder, or is gone. */
  lemma NewGameLoginOutcome(p: Proxy, m: nat, credentials: Login, authId: nat)
    requires Valid(p) && m in p.clients && p.clients[m].phase == INIT && p.config.razorWorkaround
    ensures Of(p, m) in p.connections
    ensures var p' := GameLogin(p, m, credentials, authId);
            && (m in p'.clients <==> exists z :: Waits(p, z, credentials, authId))
            && (m in p'.clients ==>
                  exists z :: Waits(p, z, credentials, authId) && z !in p'.clients && Of(p, m) !in p'.connections
                              && p'.clients[m].connection == Some(Of(p, z))
                              && p'.clients[m].phase == EntryPhase(p.connections[Of(p, z)])
                              && p'.clients[m].checked == p'.clients[m].presented == Some(credentials))
  {
    ValidKicked(p, m);
    FoundWaits(p, credentials, authId);
    match FindZombie(p, p.order, credentials, authId)
    case None =>
    case Some(z) => ReplacedOutcome(p, m, z, credentials);
  }

  /** Any other game login is refused. */
  lemma RefusedGameLogin(p: Proxy, m: nat, credentials: Login, authId: nat)
    requires Valid(p) && m in p.clients
    requires !p.config.razorWorkaround || (p.clients[m].phase != INIT && p.clients[m].phase != RELAY_SERVER)
    ensures Of(p, m) in p.connections && GameLogin(p, m, credentials, authId).clients == p.clients - {m}
  {
    ValidKicked(p, m);
  }

  // ---- Choosing a game server and a character ----

  /** Another connection for the same account and game server. */
  ghost predicate CanJoin(p: Proxy, m: nat, index: nat, d: nat)
    requires m in p.clients && p.clients[m].connection != None && Of(p, m) in p.connections
  {
    && d in p.connections && d != Of(p, m) && Joinable(p.connections[d], p.connections[Of(p, m)].credentials)
    && p.connections[d].serverIndex == index
  }

  lemma ChosenOther(p: Proxy, m: nat, index: nat)
    requires Valid(p) && m in p.clients && p.clients[m].phase == SERVER_LIST
    ensures Of(p, m) in p.connections
    ensures var p1 := Chosen(p, m, index);
            match FindOther(p1, p1.order, Of(p, m))
            case None => forall d :: !CanJoin(p, m, index, d)
            case Some(d) => CanJoin(p, m, index, d) && IsOther(p1, d, Of(p, m))
  {
    assert ClientFits(p, m);
    var p1, c := Chosen(p, m, index), Of(p, m);
    if FindOther(p1, p1.order, c) == None {
      forall d ensures !CanJoin(p, m, index, d) {
        if CanJoin(p, m, index, d) {
          assert d in p1.order && IsOther(p1, d, c);
          assert false;
        }
      }
    }
  }

  /** A client that is told to reconnect. */
  ghost predicate IsRedirected(p: Proxy, was: Client, now: Client, ipv4: bool, authId: nat, otherwise: Phase) {
    if p.config.razorWorkaround && ipv4 then now.phase == RELAY_SERVER && now.authId == authId
    else now.phase == otherwise && now.authId == was.authId
  }

  /** If there is such a connection, the client goes there and leaves its own, and
      plays at once unless it has to reconnect. */
  lemma PlayServerJoins(p: Proxy, m: nat, index: nat, ipv4: bool, authId: nat) returns (d: nat)
    requires Valid(p) && m in p.clients && p.clients[m].phase == SERVER_LIST && Of(p, m) in p.connections
    requires exists k: nat :: CanJoin(p, m, index, k)
    ensures CanJoin(p, m, index, d)
    ensures var p' := PlayServer(p, m, index, ipv4, authId);
            && m in p'.clients && p'.clients[m].connection == Some(d) && Of(p, m) !in p'.connections
            && (forall k :: k in p'.clients <==> k in p.clients)
            && IsRedirected(p, p.clients[m], p'.clients[m], ipv4, authId, if p.config.razorWorkaround then PLAY_SERVER else IN_GAME)
  {
    ValidChosen(p, m, index);
    ChosenOther(p, m, index);
    var p1 := Chosen(p, m, index);
    d := FindOther(p1, p1.order, Of(p, m)).value;
    CanAttachTo(p1, m, d);
    MovedIs(p1, m, d, p1.clients[m]);
  }

  /** Else it stays on its own one, for which a configured game server is connected to
      at once; an index that is not configured is refused. */
  lemma PlayServerStays(p: Proxy, m: nat, index: nat, ipv4: bool, authId: nat)
    requires Valid(p) && m in p.clients && p.clients[m].phase == SERVER_LIST
    ensures Of(p, m) in p.connections
    ensures (forall d :: !CanJoin(p, m, index, d)) ==>
              var p', c := PlayServer(p, m, index, ipv4, authId), Of(p, m);
              var configured := !p.config.loginAddress && p.config.gameServers > 0;
              if configured && index >= p.config.gameServers then m !in p'.clients
              else
                && m in p'.clients && p'.clients[m].connection == Some(c) && c in p'.connections
                && p'.connections[c].serverIndex == index
                && p'.connections[c].connecting == (configured || p.connections[c].connecting)
                && IsRedirected(p, p.clients[m], p'.clients[m], ipv4, authId, PLAY_SERVER)
  {
    ValidChosen(p, m, index);
    ChosenOther(p, m, index);
    ValidKicked(Chosen(p, m, index), m);
  }

  /** Before it has got the list of servers, or of characters, a client must not
      choose. */
  lemma RefusedChoice(p: Proxy, m: nat, index: nat, ipv4: bool, authId: nat)
    requires Valid(p) && m in p.clients
    ensures Of(p, m) in p.connections
    ensures p.clients[m].phase != SERVER_LIST ==> PlayServer(p, m, index, ipv4, authId).clients == p.clients - {m}
    ensures if p.clients[m].phase == CHAR_LIST then
              m in PlayCharacter(p, m).clients && PlayCharacter(p, m).clients[m] == p.clients[m].(phase := PLAY_CHAR)
            else PlayCharacter(p, m).clients == p.clients - {m}
  {
    ValidKicked(p, m);
  }

  // ---- Leaving ----

  /** The last client takes its connection along unless that goes on. */
  lemma OrphanedOutcome(p: Proxy, m: nat, keep: bool)
    requires Valid(p) && m in p.clients
    ensures Of(p, m) in p.connections
    ensures var p', c := Orphaned(Detached(p, m), m, Of(p, m), keep), Of(p, m);
            && p'.clients == p.clients - {m}
            && (c in p'.connections <==> p.connections[c].servers != [m] || keep)
            && (c in p'.connections ==> p'.connections[c] == p.connections[c].(servers := Unlinked(p.connections[c].servers, m)))
            && (forall d :: d != c ==> (d in p'.connections <==> d in p.connections))
            && (forall d :: d != c && d in p.connections ==> p'.connections[d] == p.connections[d])
  {
    ValidOrphaned(p, m, keep);
    assert ClientFits(p, m) && Members(p, Of(p, m));
    UnlinkedEmpty(p.connections[Of(p, m)].servers, m);
  }

  lemma UnlinkedEmpty(xs: seq<nat>, x: nat)
    requires x in xs
    ensures Unlinked(xs, x) == [] <==> xs == [x]
  {
    if xs[0] == x {
      assert xs == [x] + xs[1..];
    }
  }

  /** When a client was refused, and when it has disconnected or a placeholder has timed
      out. A client that was told to reconnect stays without its socket. */
  lemma LeavingOutcome(p: Proxy, m: nat)
    requires Valid(p) && m in p.clients
    ensures Of(p, m) in p.connections
    ensures var c := p.connections[Of(p, m)];
            && (Of(p, m) in Kicked(p, m).connections <==> c.servers != [m] || p.config.background)
            && (Of(p, m) in Gone(p, m).connections <==> c.servers != [m] || (p.config.background && c.connected && c.inGame))
            && Kicked(p, m).clients == Gone(p, m).clients == p.clients - {m}
            && (if p.clients[m].phase == RELAY_SERVER then
                  && OnDisconnect(p, m).clients == p.clients[m := p.clients[m].(socket := false)]
                  && OnDisconnect(p, m).connections == p.connections
                else OnDisconnect(p, m) == Gone(p, m))
  {
    assert ClientFits(p, m);
    var c := p.connections[Of(p, m)];
    OrphanedOutcome(p, m, p.config.background);
    OrphanedOutcome(p, m, p.config.background && c.connected && c.inGame);
  }

  // ---- The game server ----

  /** All clients of the connection are in the game, and nobody else is affected. */
  lemma StartOutcome(p: Proxy, c: nat, hasSerial: bool)
    requires Valid(p) && c in p.connections
    ensures var p' := OnStart(p, c, hasSerial);
            && p'.connections == p.connections[c := p.connections[c].(inGame := hasSerial)]
            && (forall m :: m in p'.clients <==> m in p.clients)
            && forall m :: m in p.clients ==>
                 p'.clients[m] == if p.clients[m].connection == Some(c) then p.clients[m].(phase := IN_GAME) else p.clients[m]
  {
    assert Members(p, c);
    forall m | m in p.clients ensures p.clients[m].connection == Some(c) <==> m in p.connections[c].servers {
      assert ClientFits(p, m);
    }
    forall m | m in p.clients ensures p.clients[m].phase in ANY_PHASE {
      AnyPhase(p.clients[m].phase);
    }
  }

  /** The list of characters is remembered, and sent to those who wait for it. */
  lemma CharListOutcome(p: Proxy, c: nat, saved: bool, reconnecting: bool)
    requires Valid(p) && c in p.connections
    ensures var p' := OnCharList(p, c, saved, reconnecting);
            && p'.connections == p.connections[c := p.connections[c].(charList := p.connections[c].charList || saved)]
            && (forall m :: m in p'.clients <==> m in p.clients)
            && forall m :: m in p.clients ==>
                 var waits := p.clients[m].phase == GAME_LOGIN || p.clients[m].phase == PLAY_SERVER;
                 p'.clients[m] == if p.clients[m].connection == Some(c) && waits && !reconnecting
                                  then p.clients[m].(phase := CHAR_LIST) else p.clients[m]
  {
    assert Members(p, c);
    forall m | m in p.clients ensures p.clients[m].connection == Some(c) <==> m in p.connections[c].servers {
      assert ClientFits(p, m);
    }
  }

  /** A sound list of servers is sent to those who wait for it; the connection is given
      up for one that is malformed, or out of order. */
  lemma ServerListOutcome(p: Proxy, c: nat, wellFormed: bool, ordered: bool, reconnecting: bool)
    requires Valid(p) && c in p.connections
    ensures var p' := OnServerList(p, c, wellFormed, ordered, reconnecting);
            if !wellFormed || (!ordered && !reconnecting) then p' == ServerGone(p, c)
            else
              && p'.connections == p.connections && (forall m :: m in p'.clients <==> m in p.clients)
              && forall m :: m in p.clients ==>
                   p'.clients[m] == if p.clients[m].connection == Some(c) && p.clients[m].phase == ACCOUNT_LOGIN && !reconnecting
                                    then p.clients[m].(phase := SERVER_LIST) else p.clients[m]
  {
    assert Members(p, c);
    forall m | m in p.clients ensures p.clients[m].connection == Some(c) <==> m in p.connections[c].servers {
      assert ClientFits(p, m);
    }
  }

  /** A lost server is connected to again if the player is in the game and that is
      configured; else the connection goes with its clients, and nothing else. */
  lemma ServerGoneOutcome(p: Proxy, c: nat)
    requires Valid(p) && c in p.connections
    ensures var p' := ServerGone(p, c);
            if p.config.autoreconnect && p.connections[c].inGame then
              p'.clients == p.clients && p'.connections == p.connections[c := p.connections[c].(connected := false)]
            else
              && p'.connections == p.connections - {c}
              && (forall m :: m in p'.clients <==> m in p.clients && p.clients[m].connection != Some(c))
              && (forall m :: m in p'.clients ==> p'.clients[m] == p.clients[m])
  {
    assert Members(p, c);
    forall m | m in p.clients ensures p.clients[m].connection == Some(c) <==> m in p.connections[c].servers {
      assert ClientFits(p, m);
    }
  }

  /** A relay leads to another server unless the player is in the game already; attempts
      to connect end in a connection or not; and a new one can replace the old one. */
  lemma LinkOutcome(p: Proxy, c: nat, reconnecting: bool, success: bool)
    requires Valid(p) && c in p.connections
    ensures OnRelay(p, c, reconnecting) ==
            if p.connections[c].inGame && !reconnecting then ServerGone(p, c)
            else p.(connections := p.connections[c := p.connections[c].(connected := false, connecting := true)])
    ensures Possible(p, ConnectEnds(c, success)) ==>
              Step(p, ConnectEnds(c, success)).connections ==
              p.connections[c := p.connections[c].(connected := success, connecting := false)]
    ensures Possible(p, Reconnects(c)) ==>
              Step(p, Reconnects(c)).connections == p.connections[c := p.connections[c].(connected := false, connecting := true)]
  {
  }

  /** A new client is alone on a new connection, which comes first. */
  lemma AcceptOutcome(p: Proxy)
    requires Valid(p)
    ensures var p' := Accepted(p);
            exists m, c ::
              && m !in p.clients && c !in p.connections && m in p'.clients && c in p'.connections
              && p'.clients == p.clients[m := p'.clients[m]] && p'.connections == p.connections[c := p'.connections[c]]
              && p'.order == [c] + p.order && p'.connections[c].servers == [m]
              && p'.clients[m].connection == Some(c) && p'.clients[m].phase == INIT && p'.clients[m].socket
              && p'.clients[m].checked == p'.clients[m].presented == None
              && !p'.connections[c].inGame && !p'.connections[c].connected && !p'.connections[c].connecting && !p'.connections[c].charList
  {
    assert p.nextId !in p.clients && p.nextId + 1 !in p.connections;
  }
}
