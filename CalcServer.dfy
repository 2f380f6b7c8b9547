/**
 * The calculation server: the session table with its counters, the
 * handshake, the dispatch of one request, and the per-connection loop that
 * reassembles frames from the bytes read off the socket.
 */
module CalcServer {
  import opened Wrappers
  import opened Bytes
  import opened Externals
  import opened CalcProtocol
  import Text
  import Sums

  datatype SessionClient = SessionClient(
    sessionId: string,
    adresse: SocketAddr,
    connexionsActives: nat,
    calculsEffectues: nat,
    tempsConnexion: Timestamp)

  /** Every session of a table is filed under its own id. */
  predicate TableValide(sessions: map<string, SessionClient>)
  {
    forall k | k in sessions :: sessions[k].sessionId == k
  }

  /** The number of calculations of each session of a table. */
  ghost function CalculsDe(sessions: map<string, SessionClient>): map<string, nat>
  {
    map k | k in sessions :: sessions[k].calculsEffectues
  }

  /** The total number of calculations of the sessions of a table. */
  ghost function TotalCalculsDe(sessions: map<string, SessionClient>): nat
  {
    Sums.SumValues(CalculsDe(sessions))
  }

  /** The session with one more calculation counted. */
  function UnCalculDePlus(s: SessionClient): (r: SessionClient)
    ensures r.calculsEffectues == s.calculsEffectues + 1
    ensures r.sessionId == s.sessionId && r.adresse == s.adresse && r.connexionsActives == s.connexionsActives
    ensures r.tempsConnexion == s.tempsConnexion
  {
    s.(calculsEffectues := s.calculsEffectues + 1)
  }

  /** Opening a session with no calculation keeps the table valid and its total. */
  lemma TableAjout(sessions: map<string, SessionClient>, s: SessionClient)
    requires TableValide(sessions) && s.sessionId !in sessions && s.calculsEffectues == 0
    ensures TableValide(sessions[s.sessionId := s])
    ensures TotalCalculsDe(sessions[s.sessionId := s]) == TotalCalculsDe(sessions)
  {
    var k, m := s.sessionId, CalculsDe(sessions);
    CalculsAjout(sessions, s);
    assert m - {k} == m;
    Sums.SumUpdate(m, k, 0);
  }

  lemma CalculsAjout(sessions: map<string, SessionClient>, s: SessionClient)
    requires s.calculsEffectues == 0
    ensures CalculsDe(sessions[s.sessionId := s]) == CalculsDe(sessions)[s.sessionId := 0]
  {
  }

  /** Closing a session keeps the table valid and never raises its total. */
  lemma TableRetrait(sessions: map<string, SessionClient>, k: string)
    requires TableValide(sessions)
    ensures TableValide(sessions - {k})
    ensures TotalCalculsDe(sessions - {k}) <= TotalCalculsDe(sessions)
  {
    assert CalculsDe(sessions - {k}) == CalculsDe(sessions) - {k};
    Sums.SumRemoveAny(CalculsDe(sessions), k);
  }

  /** Counting a calculation for an open session keeps the table valid and adds one to its total. */
  lemma TableCalcul(sessions: map<string, SessionClient>, k: string)
    requires TableValide(sessions) && k in sessions
    ensures TableValide(sessions[k := UnCalculDePlus(sessions[k])])
    ensures TotalCalculsDe(sessions[k := UnCalculDePlus(sessions[k])]) == TotalCalculsDe(sessions) + 1
  {
    var s := UnCalculDePlus(sessions[k]);
    var avant := CalculsDe(sessions);
    assert CalculsDe(sessions[k := s]) == avant[k := s.calculsEffectues];
    Sums.SumUpdate(avant, k, s.calculsEffectues);
    Sums.SumRemove(avant, k);
  }

  /** What the replies report of the server: the sessions open, the connections ever opened, the calculations counted. */
  datatype Releve = Releve(actives: nat, connexions: nat, calculs: nat)

  /** The server description with `actives` sessions open (the start time and uptime fields are not modelled). */
  function InfoDe(actives: nat): JsonValue
  {
    JObject(map[
      "nom" := JString("Serveur de Calcul à Distance"),
      "version" := JString("1.0.0"),
      "sessions_actives" := JNumber(actives as real),
      "operations_supportees" := JArray([
        JString("Addition"), JString("Soustraction"), JString("Multiplication"), JString("Division"),
        JString("Puissance"), JString("Racine"), JString("Factorielle"), JString("Fibonacci")]),
      "protocole" := JString("TCP avec messages JSON"),
      "format_message" := JString("Prefixe de taille (4 bytes) + JSON")])
  }

  /**
   * The counters of the statistics reply (the per-session list and the
   * clock-derived fields are not modelled). The average is the exact
   * quotient where the source divides two `f64`.
   */
  function StatistiquesDe(r: Releve): JsonValue
  {
    JObject(map[
      "total_connexions" := JNumber(r.connexions as real),
      "total_calculs" := JNumber(r.calculs as real),
      "sessions_actives" := JNumber(r.actives as real),
      "moyenne_calculs_par_session" := JNumber(
        if r.connexions > 0 then r.calculs as real / r.connexions as real else 0.0)])
  }

  /** The server description holds the fields modelled, the open-session count and the eight operations. */
  lemma InfoContenu(actives: nat)
    ensures var r := InfoDe(actives);
      && r.JObject? && r.fields.Keys == {"nom", "version", "sessions_actives", "operations_supportees", "protocole", "format_message"}
      && r.fields["sessions_actives"] == JNumber(actives as real)
      && r.fields["operations_supportees"].JArray? && |r.fields["operations_supportees"].items| == 8
  {
  }

  /**
   * The statistics hold the three counters and their mean: a non-negative
   * number that, times the connection count, gives the calculation count,
   * or 0 when no connection was ever made.
   */
  lemma StatistiquesContenu(r: Releve)
    ensures var s := StatistiquesDe(r);
      && s.JObject? && s.fields.Keys == {"total_connexions", "total_calculs", "sessions_actives", "moyenne_calculs_par_session"}
      && s.fields["total_connexions"] == JNumber(r.connexions as real) && s.fields["total_calculs"] == JNumber(r.calculs as real)
      && s.fields["sessions_actives"] == JNumber(r.actives as real)
      && s.fields["moyenne_calculs_par_session"].JNumber?
      && var moyenne := s.fields["moyenne_calculs_par_session"].n;
        && moyenne >= 0.0
        && (r.connexions > 0 ==> moyenne * r.connexions as real == r.calculs as real)
        && (r.connexions == 0 ==> moyenne == 0.0)
  {
  }

  /** The shared server state (behind a mutex in the source; the lock is not modelled). */
  class EtatServeurCalcul {
    var sessions: map<string, SessionClient>
    var totalConnexions: nat
    var totalCalculs: nat
    const tempsDemarrage: Timestamp

    /**
     * Every session is filed under its own id; the connection counter covers
     * the sessions still open, and the calculation counter covers the
     * calculations of the sessions still open.
     */
    ghost predicate Valid()
      reads this
    {
      && TableValide(sessions)
      && totalConnexions >= |sessions|
      && totalCalculs >= TotalCalculsDe(sessions)
    }

    constructor(now: Timestamp)
      ensures Valid()
      ensures sessions == map[] && totalConnexions == 0 && totalCalculs == 0 && tempsDemarrage == now
    {
      sessions := map[];
      totalConnexions := 0;
      totalCalculs := 0;
      tempsDemarrage := now;
      new;
      assert CalculsDe(map[]) == map[];
    }

    /** Opens a session; an id already open is refused and nothing changes. */
    method AjouterSession(sessionId: string, adresse: SocketAddr, now: Timestamp) returns (r: Result<(), string>)
      requires Valid()
      modifies this
      ensures Valid()
      ensures old(sessionId in sessions) ==> r == Failure("Session '" + sessionId + "' déjà active") && unchanged(this)
      ensures old(sessionId !in sessions) ==> r.Success? && totalCalculs == old(totalCalculs)
      ensures old(sessionId !in sessions) ==> sessions == old(sessions)[sessionId := SessionClient(sessionId, adresse, 1, 0, now)]
      ensures old(sessionId !in sessions) ==> totalConnexions == old(totalConnexions) + 1
    {
      if sessionId in sessions {
        return Failure("Session '" + sessionId + "' déjà active");
      }
      TableAjout(sessions, SessionClient(sessionId, adresse, 1, 0, now));
      sessions := sessions[sessionId := SessionClient(sessionId, adresse, 1, 0, now)];
      totalConnexions := totalConnexions + 1;
      r := Success(());
    }

    /** Closes a session; an id that is not open is ignored. The connection counter never goes down. */
    method SupprimerSession(sessionId: string)
      requires Valid()
      modifies this
      ensures Valid()
      ensures sessions == old(sessions) - {sessionId}
      ensures totalConnexions == old(totalConnexions) && totalCalculs == old(totalCalculs)
    {
      TableRetrait(sessions, sessionId);
      sessions := sessions - {sessionId};
    }

    /** Counts one calculation for an open session; does nothing for an unknown id. */
    method IncrementerCalculs(sessionId: string)
      requires Valid()
      modifies this
      ensures Valid()
      ensures old(sessionId in sessions) ==>
        && sessions == old(sessions)[sessionId := UnCalculDePlus(old(sessions)[sessionId])]
        && totalCalculs == old(totalCalculs) + 1
      ensures old(sessionId !in sessions) ==> unchanged(this)
      ensures totalConnexions == old(totalConnexions) && sessions.Keys == old(sessions).Keys
    {
      if sessionId in sessions {
        TableCalcul(sessions, sessionId);
        assert sessions[sessionId := UnCalculDePlus(sessions[sessionId])].Keys == sessions.Keys;
        sessions := sessions[sessionId := UnCalculDePlus(sessions[sessionId])];
        totalCalculs := totalCalculs + 1;
      }
    }

    /** The counters this state reports. */
    function Compteurs(): Releve
      reads this
    {
      Releve(|sessions|, totalConnexions, totalCalculs)
    }

    function InfoServeur(): JsonValue
      reads this
    {
      InfoDe(|sessions|)
    }

    function Statistiques(): JsonValue
      reads this
    {
      StatistiquesDe(Compteurs())
    }

    /** In a valid state the reported active sessions never exceed the connections ever opened. */
    lemma StatistiquesCoherentes()
      requires Valid()
      ensures var f := Statistiques().fields;
        && f["sessions_actives"].n <= f["total_connexions"].n
        && f["sessions_actives"] == InfoServeur().fields["sessions_actives"]
        && f["moyenne_calculs_par_session"].n >= 0.0
    {
    }
  }

  /** The frames of a list of messages, back to back. */
  function Trames(c: Codec, ms: seq<MessageProtocole>): seq<uint8>
  {
    if ms == [] then [] else VersBytes(c, ms[0]) + Trames(c, ms[1..])
  }

  /** `buf` does not start with a complete frame (the drain loop stops there). */
  predicate Incomplet(c: Codec, buf: seq<uint8>)
  {
    |buf| < 4 || DepuisBytes(c, buf).Failure?
  }

  /** `fin` says whether the last of `ms` is a `Deconnexion`, and none before it is. */
  predicate FinDeconnexion(ms: seq<MessageProtocole>, fin: bool)
  {
    && (fin <==> ms != [] && ms[|ms| - 1].typeOperation == Deconnexion)
    && forall i | 0 <= i < |ms| - 1 :: ms[i].typeOperation != Deconnexion
  }

  lemma FinDeconnexionCons(m: MessageProtocole, ms: seq<MessageProtocole>, fin: bool)
    requires m.typeOperation != Deconnexion && FinDeconnexion(ms, fin)
    ensures FinDeconnexion([m] + ms, fin)
  {
    var t := [m] + ms;
    assert forall i | 1 <= i < |t| :: t[i] == ms[i - 1];
  }

  /**
   * The drain loop as a function of the buffer: the messages taken out, in
   * order, the bytes left, and whether a `Deconnexion` ended the session
   * (it is the last message taken, and processing stops right after it).
   */
  function Drain(c: Codec, buf: seq<uint8>): (r: (seq<MessageProtocole>, seq<uint8>, bool))
    ensures Text.EndsWith(buf, r.1)
    ensures FinDeconnexion(r.0, r.2)
    decreases |buf|
  {
    if |buf| < 4 then ([], buf, false)
    else
      var d := DepuisBytes(c, buf);
      if d.Failure? then ([], buf, false)
      else
        var m, queue := d.value.0, buf[d.value.1..];
        if m.typeOperation == Deconnexion then ([m], queue, true)
        else
          var r := Drain(c, queue);
          EndsWithDrop(buf, d.value.1, r.1);
          FinDeconnexionCons(m, r.0, r.2);
          ([m] + r.0, r.1, r.2)
  }

  /** When no `Deconnexion` stopped it, the drain loop leaves no complete frame behind. */
  lemma {:induction false} DrainIncomplet(c: Codec, buf: seq<uint8>)
    ensures !Drain(c, buf).2 ==> Incomplet(c, Drain(c, buf).1)
    decreases |buf|
  {
    if |buf| >= 4 && DepuisBytes(c, buf).Success? {
      var m, n := DepuisBytes(c, buf).value.0, DepuisBytes(c, buf).value.1;
      DrainUn(c, buf, m, n);
      DrainIncomplet(c, buf[n..]);
    } else {
      DrainPas(c, buf);
    }
  }

  /** One round of the drain loop. */
  lemma DrainPas(c: Codec, buf: seq<uint8>)
    ensures |buf| < 4 || DepuisBytes(c, buf).Failure? ==> Drain(c, buf) == ([], buf, false)
    ensures |buf| >= 4 && DepuisBytes(c, buf).Success? ==>
      var m, n := DepuisBytes(c, buf).value.0, DepuisBytes(c, buf).value.1;
      var r := Drain(c, buf[n..]);
      Drain(c, buf) == if m.typeOperation == Deconnexion then ([m], buf[n..], true) else ([m] + r.0, r.1, r.2)
  {
  }

  /** `DrainPas` for a frame already decoded. */
  lemma DrainUn(c: Codec, buf: seq<uint8>, m: MessageProtocole, n: nat)
    requires DepuisBytes(c, buf) == Success((m, n))
    ensures n <= |buf|
    ensures m.typeOperation == Deconnexion ==> Drain(c, buf) == ([m], buf[n..], true)
    ensures m.typeOperation != Deconnexion ==> Drain(c, buf) == ([m] + Drain(c, buf[n..]).0, Drain(c, buf[n..]).1, Drain(c, buf[n..]).2)
  {
    DrainPas(c, buf);
  }

  lemma EndsWithDrop<T>(s: seq<T>, n: nat, t: seq<T>)
    requires n <= |s| && Text.EndsWith(s[n..], t)
    ensures Text.EndsWith(s, t)
  {
    assert s[|s| - |t|..] == s[n..][|s[n..]| - |t|..];
  }

  /** Every message of `ms` fits a frame. */
  predicate Encodables(c: Codec, ms: seq<MessageProtocole>)
  {
    forall m | m in ms :: |JsonBytes(c, m)| < TailleMax
  }

  /** The drain loop's step on a buffer that starts with a complete frame. */
  lemma DrainPremier(c: Codec, m: MessageProtocole, reste: seq<uint8>)
    requires RoundTrips(c) && |JsonBytes(c, m)| < TailleMax
    ensures var r := Drain(c, reste);
      Drain(c, VersBytes(c, m) + reste) ==
        if m.typeOperation == Deconnexion then ([m], reste, true) else ([m] + r.0, r.1, r.2)
  {
    var f := VersBytes(c, m);
    DepuisVersBytes(c, m, reste);
    assert (f + reste)[|f|..] == reste;
  }

  /**
   * Frames sent back to back followed by an incomplete frame are taken out
   * one by one, in order, and the incomplete part is left for the next read.
   */
  lemma {:induction false} DrainTrames(c: Codec, ms: seq<MessageProtocole>, partiel: seq<uint8>)
    requires RoundTrips(c) && Encodables(c, ms)
    requires forall m | m in ms :: m.typeOperation != Deconnexion
    requires Incomplet(c, partiel)
    ensures Drain(c, Trames(c, ms) + partiel) == (ms, partiel, false)
  {
    if ms != [] {
      var reste := Trames(c, ms[1..]) + partiel;
      assert Trames(c, ms) + partiel == VersBytes(c, ms[0]) + reste;
      assert ms[0] in ms;
      DrainPremier(c, ms[0], reste);
      DrainTrames(c, ms[1..], partiel);
      assert Drain(c, reste) == (ms[1..], partiel, false);
      assert ms == [ms[0]] + ms[1..];
    } else {
      assert Trames(c, ms) + partiel == partiel;
      if |partiel| >= 4 {
        assert DepuisBytes(c, partiel).Failure?;
      }
    }
  }

  /**
   * A `Deconnexion` frame ends the draining: the frames before it are
   * handled in order and whatever follows it is left in the buffer.
   */
  lemma {:induction false} DrainDeconnexion(c: Codec, ms: seq<MessageProtocole>, m: MessageProtocole, suite: seq<uint8>)
    requires RoundTrips(c) && Encodables(c, ms) && |JsonBytes(c, m)| < TailleMax
    requires forall x | x in ms :: x.typeOperation != Deconnexion
    requires m.typeOperation == Deconnexion
    ensures Drain(c, Trames(c, ms) + (VersBytes(c, m) + suite)) == (ms + [m], suite, true)
  {
    var fin := VersBytes(c, m) + suite;
    if ms == [] {
      assert Trames(c, ms) + fin == fin;
      assert ms + [m] == [m];
      DrainPremier(c, m, suite);
    } else {
      var reste := Trames(c, ms[1..]) + fin;
      assert Trames(c, ms) + fin == VersBytes(c, ms[0]) + reste;
      assert ms[0] in ms;
      DrainPremier(c, ms[0], reste);
      forall x | x in ms[1..]
        ensures x in ms
      {
      }
      DrainDeconnexion(c, ms[1..], m, suite);
      assert Drain(c, reste) == (ms[1..] + [m], suite, true);
      assert [ms[0]] + ms[1..] == ms;
      Text.Concat3([ms[0]], ms[1..], [m]);
    }
  }

  /** One `socket.read`: the bytes read (none once the peer has closed), a read error, or the 300-second timeout. */
  datatype Lecture = Octets(donnees: seq<uint8>) | ErreurLecture | Delai

  /**
   * What a connection draws from outside the model: the JSON codec, the
   * calculator, the text of a result's details (an `f64` rendering), and,
   * for the k-th message the connection sends, a fresh id and a clock reading.
   */
  datatype Environnement = Environnement(
    codec: Codec,
    calculer: RequeteCalcul -> Result<real, string>,
    decrire: (RequeteCalcul, real) -> string,
    uuid: nat -> Uuid,
    horloge: nat -> Timestamp)

  /** The `Debug` rendering of an operation type. */
  function NomType(t: TypeOperation): string
  {
    match t
    case Connexion => "Connexion"
    case ConnexionOk => "ConnexionOk"
    case Calcul => "Calcul"
    case ResultatCalcul => "ResultatCalcul"
    case InfoServeur => "InfoServeur"
    case ReponseInfoServeur => "ReponseInfoServeur"
    case Statistiques => "Statistiques"
    case ReponseStatistiques => "ReponseStatistiques"
    case Erreur => "Erreur"
    case Ping => "Ping"
    case Pong => "Pong"
    case Deconnexion => "Deconnexion"
  }

  /** The error code an `Erreur` message carries. */
  function CodeErreur(m: MessageProtocole): Option<string>
  {
    if m.typeOperation == Erreur && m.donnees.Some? && m.donnees.value.JObject?
       && "code" in m.donnees.value.fields && m.donnees.value.fields["code"].JString?
    then Some(m.donnees.value.fields["code"].s)
    else None
  }

  /** A calculation request the calculator accepts: the only request that counts a calculation. */
  predicate CalculReussi(env: Environnement, m: MessageProtocole)
  {
    m.typeOperation == Calcul && m.requeteCalcul.Some? && env.calculer(m.requeteCalcul.value).Success?
  }

  /**
   * The reply to one request of an authenticated client, `k` being the
   * number of messages the connection has sent so far, and `info`/`stats`
   * the server's description and counters at that moment.
   */
  function Reponse(env: Environnement, k: nat, info: JsonValue, stats: JsonValue, m: MessageProtocole): (r: Option<MessageProtocole>)
    ensures r.None? <==> m.typeOperation == Deconnexion
    ensures m.typeOperation == Ping ==> r.value.typeOperation == Pong && r.value.donnees == Some(JString(m.id.text))
    ensures m.typeOperation == Calcul ==>
      (CalculReussi(env, m) <==> r.value.typeOperation == ResultatCalcul && r.value.id == m.id)
    ensures m.typeOperation == Calcul && !CalculReussi(env, m) ==> CodeErreur(r.value) == Some(ParametresInvalides)
    ensures m.typeOperation == InfoServeur ==> r.value.typeOperation == ReponseInfoServeur && r.value.donnees == Some(info)
    ensures m.typeOperation == Statistiques ==> r.value.typeOperation == ReponseStatistiques && r.value.donnees == Some(stats)
    ensures m.typeOperation !in {Calcul, InfoServeur, Statistiques, Ping, Deconnexion} ==>
      CodeErreur(r.value) == Some(OperationInvalide)
  {
    var id, now := env.uuid(k), env.horloge(k);
    match m.typeOperation
    case Calcul =>
      (match m.requeteCalcul
       case Some(req) =>
         (match env.calculer(req)
          case Success(v) => Some(NouveauResultatCalcul(m.id, now, v, Some(env.decrire(req, v))))
          case Failure(e) => Some(NouvelleErreur(id, now, ParametresInvalides, e)))
       case None => Some(NouvelleErreur(id, now, ParametresInvalides, "Requête de calcul invalide")))
    case InfoServeur => Some(NouvelleReponseInfoServeur(id, now, info))
    case Statistiques => Some(NouvelleReponseStatistiques(id, now, stats))
    case Ping => Some(NouveauPong(id, now, m.id))
    case Deconnexion => None
    case _ => Some(NouvelleErreur(id, now, OperationInvalide, "Opération non supportée: " + NomType(m.typeOperation)))
  }

  function OptionSeq<T>(o: Option<T>): seq<T>
  {
    if o.Some? then [o.value] else []
  }

  /**
   * The counters after one request `m` of a session, from `r`: only an
   * accepted calculation moves them, and only when the session is still in
   * the table (`compte`), since `incrementer_calculs` ignores an unknown id.
   */
  function Suivant(env: Environnement, r: Releve, compte: bool, m: MessageProtocole): Releve
  {
    if compte && CalculReussi(env, m) then r.(calculs := r.calculs + 1) else r
  }

  /** The counters after the requests `ms` of one session, in order, from `r`. */
  function Apres(env: Environnement, r: Releve, compte: bool, ms: seq<MessageProtocole>): Releve
    decreases |ms|
  {
    if ms == [] then r else Apres(env, Suivant(env, r, compte, ms[0]), compte, ms[1..])
  }

  /** How many of `ms` are calculations the calculator accepts. */
  function Calculs(env: Environnement, ms: seq<MessageProtocole>): nat
    decreases |ms|
  {
    if ms == [] then 0 else (if CalculReussi(env, ms[0]) then 1 else 0) + Calculs(env, ms[1..])
  }

  /**
   * Over a session's requests, the calculation counter grows by the number
   * of accepted calculations when the session is in the table, and nothing
   * else reported moves.
   */
  lemma {:induction false} ApresCalculs(env: Environnement, r: Releve, compte: bool, ms: seq<MessageProtocole>)
    ensures Apres(env, r, compte, ms) == if compte then r.(calculs := r.calculs + Calculs(env, ms)) else r
    decreases |ms|
  {
    if ms != [] {
      ApresCalculs(env, Suivant(env, r, compte, ms[0]), compte, ms[1..]);
    }
  }

  /** The calculation counter after a run of messages, read off `ApresCalculs`. */
  lemma CalculsApres(env: Environnement, r: Releve, compte: bool, ms: seq<MessageProtocole>)
    ensures Apres(env, r, compte, ms).calculs == r.calculs + if compte then Calculs(env, ms) else 0
  {
    ApresCalculs(env, r, compte, ms);
  }

  /** The counters after two runs of requests are those after the second, started from those after the first. */
  lemma {:induction false} ApresConcat(env: Environnement, r: Releve, compte: bool, a: seq<MessageProtocole>, b: seq<MessageProtocole>)
    ensures Apres(env, r, compte, a + b) == Apres(env, Apres(env, r, compte, a), compte, b)
    decreases |a|
  {
    if a == [] {
      assert a + b == b;
    } else {
      assert (a + b)[0] == a[0] && (a + b)[1..] == a[1..] + b;
      ApresConcat(env, Suivant(env, r, compte, a[0]), compte, a[1..], b);
    }
  }

  lemma {:induction false} ApresPas(env: Environnement, r: Releve, compte: bool, ms: seq<MessageProtocole>, m: MessageProtocole)
    ensures Apres(env, r, compte, ms + [m]) == Suivant(env, Apres(env, r, compte, ms), compte, m)
  {
    ApresConcat(env, r, compte, ms, [m]);
    assert [m][1..] == [];
  }

  /** The reply to `m` as a sequence of at most one message, the server reporting the counters `r`. */
  function Repondre(env: Environnement, k: nat, r: Releve, m: MessageProtocole): seq<MessageProtocole>
  {
    OptionSeq(Reponse(env, k, InfoDe(r.actives), StatistiquesDe(r), m))
  }

  /**
   * `f` answers a request as `Repondre` does: `f(k, r, m)` is the reply to
   * `m` after `k` messages sent, the server reporting the counters `r`.
   * The folds below take the answering function as a value so that their
   * laws hold whatever it is.
   */
  ghost predicate Repond(f: (nat, Releve, MessageProtocole) -> seq<MessageProtocole>, env: Environnement)
  {
    forall k: nat, r: Releve, m: MessageProtocole {:trigger Repondre(env, k, r, m)} :: f(k, r, m) == Repondre(env, k, r, m)
  }

  /**
   * The replies a session sends to the requests `ms`, in order, answering
   * with `f` from the counters `r` after `k` messages sent: each request
   * sees the counters and the message count left by those before it.
   */
  function Replis(f: (nat, Releve, MessageProtocole) -> seq<MessageProtocole>, env: Environnement, k: nat, r: Releve, compte: bool,
                  ms: seq<MessageProtocole>): seq<MessageProtocole>
    decreases |ms|
  {
    if ms == [] then []
    else
      var x := f(k, r, ms[0]);
      x + Replis(f, env, k + |x|, Suivant(env, r, compte, ms[0]), compte, ms[1..])
  }

  /**
   * The replies to two runs of requests are those to the first followed by
   * those to the second, which sees the counters the first left and the
   * messages the first sent.
   */
  lemma {:induction false} ReplisConcat(f: (nat, Releve, MessageProtocole) -> seq<MessageProtocole>, env: Environnement, k: nat, r: Releve,
                                        compte: bool, a: seq<MessageProtocole>, b: seq<MessageProtocole>)
    ensures var ra := Replis(f, env, k, r, compte, a);
      Replis(f, env, k, r, compte, a + b) == ra + Replis(f, env, k + |ra|, Apres(env, r, compte, a), compte, b)
    decreases |a|
  {
    if a == [] {
      assert a + b == b;
    } else {
      assert (a + b)[0] == a[0] && (a + b)[1..] == a[1..] + b;
      var x := f(k, r, a[0]);
      var s := Suivant(env, r, compte, a[0]);
      ReplisConcat(f, env, k + |x|, s, compte, a[1..], b);
      var ra := Replis(f, env, k + |x|, s, compte, a[1..]);
      Text.Concat3(x, ra, Replis(f, env, k + |x| + |ra|, Apres(env, s, compte, a[1..]), compte, b));
    }
  }

  /** One more request answered: its reply follows the others, seeing the counters and message count they left. */
  lemma {:induction false} ReplisPas(f: (nat, Releve, MessageProtocole) -> seq<MessageProtocole>, env: Environnement, k: nat, r: Releve, compte: bool,
                  ms: seq<MessageProtocole>, m: MessageProtocole)
    ensures var avant := Replis(f, env, k, r, compte, ms);
      Replis(f, env, k, r, compte, ms + [m]) == avant + f(k + |avant|, Apres(env, r, compte, ms), m)
  {
    ReplisUn(f, env, k + |Replis(f, env, k, r, compte, ms)|, Apres(env, r, compte, ms), compte, m);
    ReplisConcat(f, env, k, r, compte, ms, [m]);
  }

  lemma {:induction false} ReplisUn(f: (nat, Releve, MessageProtocole) -> seq<MessageProtocole>, env: Environnement, k: nat, r: Releve, compte: bool,
                 m: MessageProtocole)
    ensures Replis(f, env, k, r, compte, [m]) == f(k, r, m)
  {
    assert [m][1..] == [];
  }

  /** A log that already holds the replies to `ms` after `deja` holds the replies to `ms + [m]` once the reply to `m` is added. */
  lemma {:induction false} ReplisSuite(f: (nat, Releve, MessageProtocole) -> seq<MessageProtocole>, env: Environnement, deja: seq<MessageProtocole>,
                    r: Releve, compte: bool, ms: seq<MessageProtocole>, m: MessageProtocole, envoyes: seq<MessageProtocole>)
    requires envoyes == deja + Replis(f, env, |deja|, r, compte, ms)
    ensures envoyes + f(|envoyes|, Apres(env, r, compte, ms), m) == deja + Replis(f, env, |deja|, r, compte, ms + [m])
  {
    ReplisPas(f, env, |deja|, r, compte, ms, m);
    var avant := Replis(f, env, |deja|, r, compte, ms);
    var x := f(|deja| + |avant|, Apres(env, r, compte, ms), m);
    assert |envoyes| == |deja| + |avant|;
    assert Replis(f, env, |deja|, r, compte, ms + [m]) == avant + x;
    Text.Concat3(deja, avant, x);
  }

  /** Requests answered one message each get one reply each, the i-th answering the i-th request. */
  lemma {:induction false} ReplisUnParUn(f: (nat, Releve, MessageProtocole) -> seq<MessageProtocole>, env: Environnement, k: nat,
                                         r: Releve, compte: bool, ms: seq<MessageProtocole>)
    requires forall i, j: nat, s: Releve | 0 <= i < |ms| :: |f(j, s, ms[i])| == 1
    ensures var rs := Replis(f, env, k, r, compte, ms);
      && |rs| == |ms|
      && forall i | 0 <= i < |ms| :: [rs[i]] == f(k + i, Apres(env, r, compte, ms[..i]), ms[i])
    decreases |ms|
  {
    if ms != [] {
      var x := f(k, r, ms[0]);
      var s := Suivant(env, r, compte, ms[0]);
      assert forall i, j: nat, s: Releve | 0 <= i < |ms[1..]| :: |f(j, s, ms[1..][i])| == 1 by {
        assert forall i | 0 <= i < |ms[1..]| :: ms[1..][i] == ms[i + 1];
      }
      ReplisUnParUn(f, env, k + 1, s, compte, ms[1..]);
      var suite := Replis(f, env, k + 1, s, compte, ms[1..]);
      var rs := Replis(f, env, k, r, compte, ms);
      assert rs == x + suite;
      forall i | 0 <= i < |ms|
        ensures [rs[i]] == f(k + i, Apres(env, r, compte, ms[..i]), ms[i])
      {
        if i == 0 {
          assert ms[..0] == [];
        } else {
          assert rs[i] == suite[i - 1] && ms[1..][i - 1] == ms[i];
          assert ms[..i][0] == ms[0] && ms[..i][1..] == ms[1..][..i - 1];
        }
      }
    }
  }

  /** A request other than `Deconnexion` gets exactly one reply. */
  lemma {:induction false} RepondUn(f: (nat, Releve, MessageProtocole) -> seq<MessageProtocole>, env: Environnement, ms: seq<MessageProtocole>)
    requires Repond(f, env)
    requires forall i | 0 <= i < |ms| :: ms[i].typeOperation != Deconnexion
    ensures forall i, j: nat, s: Releve | 0 <= i < |ms| :: |f(j, s, ms[i])| == 1
  {
    forall i, j: nat, s: Releve | 0 <= i < |ms|
      ensures |f(j, s, ms[i])| == 1
    {
      assert f(j, s, ms[i]) == Repondre(env, j, s, ms[i]);
    }
  }

  /**
   * Requests without a `Deconnexion` are answered one reply each: the i-th
   * reply is `Repondre`'s answer to the i-th request, with the counters the
   * requests before it left, sent as the connection's (k+i)-th message.
   */
  lemma {:induction false} ReplisSansDeconnexion(f: (nat, Releve, MessageProtocole) -> seq<MessageProtocole>, env: Environnement, k: nat,
                              r: Releve, compte: bool, ms: seq<MessageProtocole>)
    requires Repond(f, env)
    requires forall i | 0 <= i < |ms| :: ms[i].typeOperation != Deconnexion
    ensures var rs := Replis(f, env, k, r, compte, ms);
      && |rs| == |ms|
      && forall i | 0 <= i < |ms| :: [rs[i]] == Repondre(env, k + i, Apres(env, r, compte, ms[..i]), ms[i])
  {
    RepondUn(f, env, ms);
    ReplisUnParUn(f, env, k, r, compte, ms);
  }

  /** What one read makes the session send: a ping for a timeout, else the replies to the requests it completed. */
  function EnvoisLecture(f: (nat, Releve, MessageProtocole) -> seq<MessageProtocole>, env: Environnement, k: nat, r: Releve, compte: bool,
                         tampon: seq<uint8>, l: Lecture): seq<MessageProtocole>
  {
    if l.Delai? then [NouveauPing(env.uuid(k), env.horloge(k))]
    else Replis(f, env, k, r, compte, Etape(env.codec, tampon, l).traites)
  }

  /**
   * What the connection has sent once the read loop is over, `deja` being
   * what it had sent before: each read adds its messages, until a read
   * stops the loop.
   */
  function Sortie(f: (nat, Releve, MessageProtocole) -> seq<MessageProtocole>, env: Environnement, deja: seq<MessageProtocole>, r: Releve,
                  compte: bool, tampon: seq<uint8>, lectures: seq<Lecture>): seq<MessageProtocole>
    decreases |lectures|
  {
    if lectures == [] then deja
    else
      var e := Etape(env.codec, tampon, lectures[0]);
      var envoyes := deja + EnvoisLecture(f, env, |deja|, r, compte, tampon, lectures[0]);
      if e.arret then envoyes
      else Sortie(f, env, envoyes, Apres(env, r, compte, e.traites), compte, e.reste, lectures[1..])
  }

  /** The read loop from its `i`-th read: that read's messages, then the rest unless it stopped. */
  lemma {:induction false} SortieDe(f: (nat, Releve, MessageProtocole) -> seq<MessageProtocole>, env: Environnement, deja: seq<MessageProtocole>, r: Releve,
                 compte: bool, tampon: seq<uint8>, lectures: seq<Lecture>, i: nat)
    requires i < |lectures|
    ensures var e := Etape(env.codec, tampon, lectures[i]);
      var envoyes := deja + EnvoisLecture(f, env, |deja|, r, compte, tampon, lectures[i]);
      Sortie(f, env, deja, r, compte, tampon, lectures[i..])
        == if e.arret then envoyes else Sortie(f, env, envoyes, Apres(env, r, compte, e.traites), compte, e.reste, lectures[i + 1..])
  {
    var l := lectures[i..];
    assert l != [] && l[0] == lectures[i] && l[1..] == lectures[i + 1..];
  }

  /** `SortieDe` in the form the read loop keeps as its invariant. */
  lemma {:induction false} SortiePas(f: (nat, Releve, MessageProtocole) -> seq<MessageProtocole>, env: Environnement,
                                     deja: seq<MessageProtocole>, r: Releve, compte: bool, tampon: seq<uint8>, lectures: seq<Lecture>,
                                     i: nat, sortie: seq<MessageProtocole>, envoyes: seq<MessageProtocole>, e: Tour)
    requires i < |lectures|
    requires sortie == Sortie(f, env, deja, r, compte, tampon, lectures[i..])
    requires Etape(env.codec, tampon, lectures[i]) == e
    requires envoyes == deja + EnvoisLecture(f, env, |deja|, r, compte, tampon, lectures[i])
    ensures e.arret ==> sortie == envoyes
    ensures !e.arret ==> sortie == Sortie(f, env, envoyes, Apres(env, r, compte, e.traites), compte, e.reste, lectures[i + 1..])
  {
    SortieDe(f, env, deja, r, compte, tampon, lectures, i);
  }

  /**
   * `n` timeouts in a row make the loop send `n` pings, the i-th with the
   * id and clock reading of the connection's (k+i)-th message, `k` being the
   * number of messages sent before.
   */
  lemma {:induction false} SortieDelais(f: (nat, Releve, MessageProtocole) -> seq<MessageProtocole>, env: Environnement,
                                        deja: seq<MessageProtocole>, r: Releve, compte: bool, tampon: seq<uint8>, n: nat)
    ensures Sortie(f, env, deja, r, compte, tampon, seq(n, _ => Delai))
      == deja + seq(n, i requires 0 <= i => NouveauPing(env.uuid(|deja| + i), env.horloge(|deja| + i)))
    decreases n
  {
    var lectures := seq(n, _ => Delai);
    if n == 0 {
      assert deja + [] == deja;
    } else {
      assert lectures[0] == Delai && lectures[1..] == seq(n - 1, _ => Delai);
      var ping := NouveauPing(env.uuid(|deja|), env.horloge(|deja|));
      SortieDelais(f, env, deja + [ping], r, compte, tampon, n - 1);
      var suite := seq(n - 1, i requires 0 <= i => NouveauPing(env.uuid(|deja| + 1 + i), env.horloge(|deja| + 1 + i)));
      assert [ping] + suite == seq(n, i requires 0 <= i => NouveauPing(env.uuid(|deja| + i), env.horloge(|deja| + i)));
      Text.Concat3(deja, [ping], suite);
    }
  }

  /** The outcome of the handshake: a refusal with its error code, or the id of the session opened. */
  datatype Poignee = Refus(code: string, description: string) | Accepte(id: string)

  /** The handshake decision, from the first frame read and the ids already open. */
  function ChoixPoignee(premier: Result<(MessageProtocole, nat), ErreurTrame>, ouvertes: set<string>): (r: Poignee)
    ensures r.Refus? && r.code == MessageMalforme <==> premier.Failure?
    ensures r.Refus? && r.code == NonAuthentifie <==>
      premier.Success? && premier.value.0.typeOperation != Connexion
    ensures r.Refus? && r.code == SessionInvalide <==>
      && premier.Success? && premier.value.0.typeOperation == Connexion
      && (premier.value.0.sessionId.None? || premier.value.0.sessionId.value in ouvertes)
    ensures r.Accepte? <==>
      && premier.Success? && premier.value.0.typeOperation == Connexion
      && premier.value.0.sessionId.Some? && premier.value.0.sessionId.value !in ouvertes
    ensures r.Accepte? ==> Some(r.id) == premier.value.0.sessionId
  {
    match premier
    case Failure(_) => Refus(MessageMalforme, "Message mal formé")
    case Success((m, _)) =>
      if m.typeOperation != Connexion then Refus(NonAuthentifie, "Connexion requise avant l'envoi de requêtes")
      else match m.sessionId
        case None => Refus(SessionInvalide, "ID de session requis pour la connexion")
        case Some(id) =>
          if id in ouvertes then Refus(SessionInvalide, "Session '" + id + "' déjà active") else Accepte(id)
  }

  /** The message the handshake sends back. */
  function MessagePoignee(env: Environnement, k: nat, p: Poignee): (r: MessageProtocole)
    ensures p.Accepte? ==> r.typeOperation == ConnexionOk
    ensures p.Refus? ==> CodeErreur(r) == Some(p.code)
  {
    match p
    case Accepte(id) => NouvelleConnexionOk(env.uuid(k), env.horloge(k), "Connexion réussie! Session: " + id)
    case Refus(code, description) => NouvelleErreur(env.uuid(k), env.horloge(k), code, description)
  }

  /** What one read does: the messages it processed, the buffer left, a `Deconnexion` seen, the loop stopped. */
  datatype Tour = Tour(traites: seq<MessageProtocole>, reste: seq<uint8>, fin: bool, arret: bool)

  /** One read of the loop, on the buffer the earlier reads left. */
  function Etape(c: Codec, tampon: seq<uint8>, l: Lecture): (r: Tour)
    ensures r.fin ==> r.arret
    ensures r.fin <==> r.traites != [] && r.traites[|r.traites| - 1].typeOperation == Deconnexion
    ensures forall i | 0 <= i < |r.traites| - 1 :: r.traites[i].typeOperation != Deconnexion
    ensures l.Delai? ==> r == Tour([], tampon, false, false)
  {
    match l
    case Octets(d) =>
      if d == [] then Tour([], tampon, false, true)
      else
        var (ms, reste, fin) := Drain(c, tampon + d);
        Tour(ms, reste, fin, fin)
    case ErreurLecture => Tour([], tampon, false, true)
    case Delai => Tour([], tampon, false, false)
  }

  /**
   * The read loop as a function of the buffer and the reads still to come:
   * the messages processed, in order, and whether a `Deconnexion` ended it.
   * A read of no bytes (the peer closed) or a read error ends it quietly;
   * a timeout only sends a ping.
   */
  function Flux(c: Codec, tampon: seq<uint8>, lectures: seq<Lecture>): (r: (seq<MessageProtocole>, bool))
    decreases |lectures|
  {
    if lectures == [] then ([], false)
    else
      var e := Etape(c, tampon, lectures[0]);
      if e.arret then (e.traites, e.fin)
      else
        var (suite, f) := Flux(c, e.reste, lectures[1..]);
        (e.traites + suite, f)
  }

  /** The loop reports a `Deconnexion` exactly when the last message it processed is one. */
  lemma {:induction false} FluxFin(c: Codec, tampon: seq<uint8>, lectures: seq<Lecture>)
    ensures var r := Flux(c, tampon, lectures);
      r.1 <==> r.0 != [] && r.0[|r.0| - 1].typeOperation == Deconnexion
    decreases |lectures|
  {
    if lectures != [] && !Etape(c, tampon, lectures[0]).arret {
      FluxFin(c, Etape(c, tampon, lectures[0]).reste, lectures[1..]);
      FluxFinSuite(c, tampon, lectures);
    }
  }

  /** The step of `FluxFin` for a read that does not stop the loop: the last message handled comes from the rest. */
  lemma FluxFinSuite(c: Codec, tampon: seq<uint8>, lectures: seq<Lecture>)
    requires lectures != [] && !Etape(c, tampon, lectures[0]).arret
    requires var s := Flux(c, Etape(c, tampon, lectures[0]).reste, lectures[1..]);
      s.1 <==> s.0 != [] && s.0[|s.0| - 1].typeOperation == Deconnexion
    ensures var r := Flux(c, tampon, lectures);
      r.1 <==> r.0 != [] && r.0[|r.0| - 1].typeOperation == Deconnexion
  {
    var e := Etape(c, tampon, lectures[0]);
    var s := Flux(c, e.reste, lectures[1..]);
    assert Flux(c, tampon, lectures) == (e.traites + s.0, s.1);
    DerniereDeconnexion(e.traites, s.0, s.1);
  }

  /** Whether a run ends with a `Deconnexion` is decided by its second part, when the first does not end with one. */
  lemma DerniereDeconnexion(a: seq<MessageProtocole>, b: seq<MessageProtocole>, fin: bool)
    requires !(a != [] && a[|a| - 1].typeOperation == Deconnexion)
    requires fin <==> b != [] && b[|b| - 1].typeOperation == Deconnexion
    ensures fin <==> a + b != [] && (a + b)[|a + b| - 1].typeOperation == Deconnexion
  {
    if b != [] {
      assert (a + b)[|a + b| - 1] == b[|b| - 1];
    } else {
      assert a + b == a;
    }
  }

  /** The read loop from its `i`-th read: one round of `Etape`, then the rest unless it stopped. */
  lemma FluxDe(c: Codec, tampon: seq<uint8>, lectures: seq<Lecture>, i: nat)
    requires i < |lectures|
    ensures var e := Etape(c, tampon, lectures[i]);
      var suite := Flux(c, e.reste, lectures[i + 1..]);
      Flux(c, tampon, lectures[i..]) == if e.arret then (e.traites, e.fin) else (e.traites + suite.0, suite.1)
  {
    assert lectures[i..][1..] == lectures[i + 1..];
  }

  /** One round of the read loop, stated for the loop that accumulates the messages in `avant`. */
  lemma FluxPas(c: Codec, tampon: seq<uint8>, lectures: seq<Lecture>, i: nat, avant: seq<MessageProtocole>,
                total: (seq<MessageProtocole>, bool), e: Tour)
    requires i < |lectures|
    requires total.0 == avant + Flux(c, tampon, lectures[i..]).0 && total.1 == Flux(c, tampon, lectures[i..]).1
    requires Etape(c, tampon, lectures[i]) == e
    ensures e.arret ==> total.0 == avant + e.traites && total.1 == e.fin
    ensures !e.arret ==> !e.fin && total.0 == (avant + e.traites) + Flux(c, e.reste, lectures[i + 1..]).0
    ensures !e.arret ==> total.1 == Flux(c, e.reste, lectures[i + 1..]).1
  {
    FluxDe(c, tampon, lectures, i);
    if !e.arret {
      Text.Concat3(avant, e.traites, Flux(c, e.reste, lectures[i + 1..]).0);
    }
  }

  /** A `Deconnexion` arriving in the first read after the handshake ends the session with an error. */
  lemma FluxDeconnexion(c: Codec, m: MessageProtocole, lectures: seq<Lecture>)
    requires RoundTrips(c) && |JsonBytes(c, m)| < TailleMax
    requires m.typeOperation == Deconnexion
    ensures Flux(c, [], [Octets(VersBytes(c, m))] + lectures) == ([m], true)
  {
    DrainDeconnexion(c, [], m, []);
    assert Trames(c, []) + (VersBytes(c, m) + []) == [] + VersBytes(c, m);
  }

  /**
   * The handshake of a connection whose buffer holds `tampon` when the first
   * read `premiere` arrives: no reply at all unless that read brought bytes.
   */
  function Accueil(c: Codec, tampon: seq<uint8>, premiere: Lecture, ouvertes: set<string>): (r: Option<Poignee>)
    ensures r.Some? <==> premiere.Octets? && premiere.donnees != []
    ensures r.Some? && r.value.Accepte? ==> r.value.id !in ouvertes
  {
    if premiere.Octets? && premiere.donnees != [] then Some(ChoixPoignee(DepuisBytes(c, tampon + premiere.donnees), ouvertes))
    else None
  }

  /** The buffer the session loop starts from: what follows the first frame. */
  function ResteAccueil(c: Codec, tampon: seq<uint8>, premiere: Lecture): (r: seq<uint8>)
    requires premiere.Octets?
    ensures Text.EndsWith(tampon + premiere.donnees, r)
  {
    var b := tampon + premiere.donnees;
    match DepuisBytes(c, b)
    case Success((_, n)) =>
      EndsWithDrop(b, n, b[n..]);
      b[n..]
    case Failure(_) =>
      EndsWithDrop(b, 0, b);
      b
  }

  lemma RetraitCle(m: map<string, SessionClient>, k: string, cles: set<string>)
    requires m.Keys == cles + {k} && k !in cles
    ensures (m - {k}).Keys == cles
  {
  }

  /**
   * A client that opens a session with one frame and sends a `Deconnexion`
   * in its next read is accepted, starts the session loop with an empty
   * buffer, and ends it with the `Err` of the `Deconnexion`: combined with
   * `GererClient`'s contract, its session stays in the table.
   */
  lemma FuiteSession(c: Codec, connexion: MessageProtocole, deconnexion: MessageProtocole, ouvertes: set<string>, lectures: seq<Lecture>)
    requires RoundTrips(c)
    requires |JsonBytes(c, connexion)| < TailleMax && |JsonBytes(c, deconnexion)| < TailleMax
    requires connexion.typeOperation == Connexion && connexion.sessionId.Some? && connexion.sessionId.value !in ouvertes
    requires deconnexion.typeOperation == Deconnexion
    ensures var premiere := Octets(VersBytes(c, connexion));
      && Accueil(c, [], premiere, ouvertes) == Some(Accepte(connexion.sessionId.value))
      && ResteAccueil(c, [], premiere) == []
      && Flux(c, [], [Octets(VersBytes(c, deconnexion))] + lectures) == ([deconnexion], true)
  {
    var trame := VersBytes(c, connexion);
    DepuisVersBytes(c, connexion, []);
    assert [] + trame == trame + [] == trame;
    FluxDeconnexion(c, deconnexion, lectures);
  }

  /** The counters once a session is opened: one more active session and one more connection. */
  function Ouverture(r: Releve): Releve
  {
    r.(actives := r.actives + 1, connexions := r.connexions + 1)
  }

  /**
   * What a connection has sent once `gerer_client` is over, `deja` being
   * what it had sent before and `r` the counters when the first read came:
   * nothing unless that read brought bytes, else the handshake reply and,
   * for an accepted session, what its read loop sends after it, from the
   * counters the opening left.
   */
  function EnvoisClient(f: (nat, Releve, MessageProtocole) -> seq<MessageProtocole>, env: Environnement, deja: seq<MessageProtocole>,
                        r: Releve, ouvertes: set<string>, tampon: seq<uint8>, premiere: Lecture, lectures: seq<Lecture>): seq<MessageProtocole>
  {
    match Accueil(env.codec, tampon, premiere, ouvertes)
    case None => deja
    case Some(p) =>
      var poignee := deja + [MessagePoignee(env, |deja|, p)];
      if p.Accepte? then Sortie(f, env, poignee, Ouverture(r), true, ResteAccueil(env.codec, tampon, premiere), lectures)
      else poignee
  }

  /** The read loop only ever adds to what was sent before it. */
  lemma {:induction false} SortiePrefixe(f: (nat, Releve, MessageProtocole) -> seq<MessageProtocole>, env: Environnement, deja: seq<MessageProtocole>,
                                         r: Releve, compte: bool, tampon: seq<uint8>, lectures: seq<Lecture>)
    ensures deja <= Sortie(f, env, deja, r, compte, tampon, lectures)
    decreases |lectures|
  {
    if lectures != [] {
      var e := Etape(env.codec, tampon, lectures[0]);
      var envoyes := deja + EnvoisLecture(f, env, |deja|, r, compte, tampon, lectures[0]);
      assert deja <= envoyes;
      if !e.arret {
        SortiePrefixe(f, env, envoyes, Apres(env, r, compte, e.traites), compte, e.reste, lectures[1..]);
      }
    }
  }

  /**
   * A connection keeps what it had sent, sends nothing when the first read
   * brings no bytes, and otherwise sends the handshake reply first.
   */
  lemma EnvoisClientDebut(f: (nat, Releve, MessageProtocole) -> seq<MessageProtocole>, env: Environnement, deja: seq<MessageProtocole>,
                          r: Releve, ouvertes: set<string>, tampon: seq<uint8>, premiere: Lecture, lectures: seq<Lecture>)
    ensures var e := EnvoisClient(f, env, deja, r, ouvertes, tampon, premiere, lectures);
      && deja <= e
      && (e == deja <==> !(premiere.Octets? && premiere.donnees != []))
      && (premiere.Octets? && premiere.donnees != [] ==>
            e[|deja|] == MessagePoignee(env, |deja|, Accueil(env.codec, tampon, premiere, ouvertes).value))
  {
    var p := Accueil(env.codec, tampon, premiere, ouvertes);
    if p.Some? {
      var poignee := deja + [MessagePoignee(env, |deja|, p.value)];
      if p.value.Accepte? {
        SortiePrefixe(f, env, poignee, Ouverture(r), true, ResteAccueil(env.codec, tampon, premiere), lectures);
      }
      var e := EnvoisClient(f, env, deja, r, ouvertes, tampon, premiere, lectures);
      assert poignee <= e && poignee[|deja|] == e[|deja|];
    }
  }

  /** How `gerer_client`'s call to the session loop ended: normally, or with the `Err` its `?` propagates. */
  datatype Issue = Termine | Echec(raison: string)

  /** One client connection: its pending bytes, the messages written to it, and its session. */
  class ConnexionCalcul {
    const env: Environnement
    const adresse: SocketAddr
    /** The bytes read but not yet consumed as frames. */
    var tampon: seq<uint8>
    /** Every message written to the socket, in order. */
    var envoyes: seq<MessageProtocole>
    /** The session opened by the handshake, if any. */
    var sessionId: Option<string>
    /** How the connection answers a request: `Repondre` in its environment, as a value the folds can take. */
    ghost const repondre: (nat, Releve, MessageProtocole) -> seq<MessageProtocole>

    constructor(env: Environnement, adresse: SocketAddr)
      ensures this.env == env && this.adresse == adresse
      ensures tampon == [] && envoyes == [] && sessionId == None
      ensures Repond(repondre, env)
    {
      this.env := env;
      this.adresse := adresse;
      tampon := [];
      envoyes := [];
      sessionId := None;
      repondre := (j: nat, s: Releve, m: MessageProtocole) => Repondre(env, j, s, m);
    }

    /** Handles one request of the authenticated session `id`; `fin` is the `Err` a `Deconnexion` returns. */
    method TraiterMessageClient(etat: EtatServeurCalcul, id: string, m: MessageProtocole) returns (fin: bool)
      requires etat.Valid()
      modifies this, etat
      ensures etat.Valid()
      ensures fin <==> m.typeOperation == Deconnexion
      ensures envoyes == old(envoyes) + OptionSeq(Reponse(env, |old(envoyes)|, old(etat.InfoServeur()), old(etat.Statistiques()), m))
      ensures |envoyes| == |old(envoyes)| + (if fin then 0 else 1)
      ensures tampon == old(tampon) && sessionId == old(sessionId)
      ensures etat.sessions.Keys == old(etat.sessions).Keys && etat.totalConnexions == old(etat.totalConnexions)
      ensures etat.totalCalculs == old(etat.totalCalculs) + (if CalculReussi(env, m) && id in old(etat.sessions) then 1 else 0)
      ensures etat.Compteurs() == Suivant(env, old(etat.Compteurs()), id in old(etat.sessions), m)
    {
      var r := Reponse(env, |envoyes|, etat.InfoServeur(), etat.Statistiques(), m);
      if CalculReussi(env, m) {
        etat.IncrementerCalculs(id);
      }
      envoyes := envoyes + OptionSeq(r);
      fin := m.typeOperation == Deconnexion;
    }

    /**
     * Takes the first complete frame out of the buffer and handles it: one
     * round of `Drain`, whose remaining rounds start from the new buffer.
     */
    method TraiterTrame(etat: EtatServeurCalcul, id: string) returns (fin: bool, ghost m: MessageProtocole)
      requires etat.Valid() && Repond(repondre, env)
      requires DepuisBytes(env.codec, tampon).Success?
      modifies this, etat
      ensures etat.Valid()
      ensures fin <==> m.typeOperation == Deconnexion
      ensures |tampon| < |old(tampon)|
      ensures var d := Drain(env.codec, tampon);
        Drain(env.codec, old(tampon)) == if fin then ([m], tampon, true) else ([m] + d.0, d.1, d.2)
      ensures |envoyes| == |old(envoyes)| + (if fin then 0 else 1)
      ensures envoyes == old(envoyes) + repondre(|old(envoyes)|, old(etat.Compteurs()), m)
      ensures etat.Compteurs() == Suivant(env, old(etat.Compteurs()), id in old(etat.sessions), m)
      ensures sessionId == old(sessionId)
      ensures etat.sessions.Keys == old(etat.sessions).Keys && etat.totalConnexions == old(etat.totalConnexions)
    {
      var lu, n := DepuisBytes(env.codec, tampon).value.0, DepuisBytes(env.codec, tampon).value.1;
      DrainUn(env.codec, tampon, lu, n);
      m := lu;
      tampon := tampon[n..];
      ghost var k, r := |envoyes|, etat.Compteurs();
      fin := TraiterMessageClient(etat, id, lu);
      assert repondre(k, r, m) == Repondre(env, k, r, m);
    }

    /** The drain loop: takes every complete frame out of the buffer and handles it, stopping after a `Deconnexion`. */
    method TraiterTampon(etat: EtatServeurCalcul, id: string) returns (fin: bool, ghost traites: seq<MessageProtocole>)
      requires etat.Valid() && Repond(repondre, env)
      modifies this, etat
      ensures etat.Valid()
      ensures (traites, tampon, fin) == Drain(env.codec, old(tampon))
      ensures envoyes == old(envoyes) + Replis(repondre, env, |old(envoyes)|, old(etat.Compteurs()), id in old(etat.sessions), traites)
      ensures etat.Compteurs() == Apres(env, old(etat.Compteurs()), id in old(etat.sessions), traites)
      ensures etat.totalCalculs == old(etat.totalCalculs) + if id in old(etat.sessions) then Calculs(env, traites) else 0
      ensures |envoyes| == |old(envoyes)| + |traites| - (if fin then 1 else 0)
      ensures sessionId == old(sessionId)
      ensures etat.sessions.Keys == old(etat.sessions).Keys && etat.totalConnexions == old(etat.totalConnexions)
    {
      traites := [];
      fin := false;
      ghost var c := env.codec;
      ghost var total := Drain(c, tampon);
      ghost var reste := total;
      ghost var e0, r0, compte := envoyes, etat.Compteurs(), id in etat.sessions;
      assert traites + reste.0 == reste.0;
      while |tampon| >= 4
        invariant etat.Valid()
        invariant reste == Drain(c, tampon)
        invariant total == (traites + reste.0, reste.1, reste.2)
        invariant envoyes == e0 + Replis(repondre, env, |e0|, r0, compte, traites)
        invariant etat.Compteurs() == Apres(env, r0, compte, traites)
        invariant (id in etat.sessions) == compte
        invariant |envoyes| == |old(envoyes)| + |traites|
        invariant sessionId == old(sessionId)
        invariant etat.sessions.Keys == old(etat.sessions).Keys && etat.totalConnexions == old(etat.totalConnexions)
        decreases |tampon|
      {
        if DepuisBytes(env.codec, tampon).Failure? {
          break;
        }
        ghost var traitesAvant, envoyesAvant := traites, envoyes;
        ghost var m;
        fin, m := TraiterTrame(etat, id);
        ReplisSuite(repondre, env, e0, r0, compte, traitesAvant, m, envoyesAvant);
        ApresPas(env, r0, compte, traitesAvant, m);
        traites := traites + [m];
        if fin {
          CalculsApres(env, r0, compte, traites);
          return;
        }
        Text.Concat3(traitesAvant, [m], Drain(c, tampon).0);
        reste := Drain(c, tampon);
      }
      DrainPas(c, tampon);
      CalculsApres(env, r0, compte, traites);
      assert traites + [] == traites;
    }

    /** One read of the loop in `traiter_messages_client`. */
    method TraiterLecture(etat: EtatServeurCalcul, id: string, l: Lecture) returns (fin: bool, arret: bool, ghost lot: seq<MessageProtocole>)
      requires etat.Valid() && Repond(repondre, env)
      modifies this, etat
      ensures etat.Valid()
      ensures Etape(env.codec, old(tampon), l) == Tour(lot, tampon, fin, arret)
      ensures envoyes == old(envoyes) + EnvoisLecture(repondre, env, |old(envoyes)|, old(etat.Compteurs()), id in old(etat.sessions), old(tampon), l)
      ensures l.Delai? ==> envoyes == old(envoyes) + [NouveauPing(env.uuid(|old(envoyes)|), env.horloge(|old(envoyes)|))]
      ensures etat.Compteurs() == Apres(env, old(etat.Compteurs()), id in old(etat.sessions), lot)
      ensures |envoyes| >= |old(envoyes)| && sessionId == old(sessionId)
      ensures etat.sessions.Keys == old(etat.sessions).Keys && etat.totalConnexions == old(etat.totalConnexions)
    {
      lot, fin, arret := [], false, true;
      match l {
        case Octets(d) =>
          if d != [] {
            tampon := tampon + d;
            fin, lot := TraiterTampon(etat, id);
            arret := fin;
          }
        case ErreurLecture =>
        case Delai =>
          envoyes := envoyes + [NouveauPing(env.uuid(|envoyes|), env.horloge(|envoyes|))];
          arret := false;
      }
    }

    /** The `loop` of `traiter_messages_client`, read after read; `true` when it ends with the `Err` of a `Deconnexion`. */
    method BoucleMessages(etat: EtatServeurCalcul, id: string, lectures: seq<Lecture>) returns (fin: bool, ghost traites: seq<MessageProtocole>)
      requires etat.Valid() && Repond(repondre, env)
      modifies this, etat
      ensures etat.Valid()
      ensures traites == Flux(env.codec, old(tampon), lectures).0 && fin == Flux(env.codec, old(tampon), lectures).1
      ensures envoyes == Sortie(repondre, env, old(envoyes), old(etat.Compteurs()), id in old(etat.sessions), old(tampon), lectures)
      ensures etat.Compteurs() == Apres(env, old(etat.Compteurs()), id in old(etat.sessions), traites)
      ensures |envoyes| >= |old(envoyes)| && sessionId == old(sessionId)
      ensures etat.sessions.Keys == old(etat.sessions).Keys && etat.totalConnexions == old(etat.totalConnexions)
    {
      traites := [];
      fin := false;
      ghost var c := env.codec;
      ghost var total := Flux(c, tampon, lectures);
      ghost var r0, compte := etat.Compteurs(), id in etat.sessions;
      ghost var sortie := Sortie(repondre, env, envoyes, r0, compte, tampon, lectures);
      var i := 0;
      assert lectures[i..] == lectures;
      while i < |lectures|
        invariant 0 <= i <= |lectures|
        invariant etat.Valid()
        invariant total.0 == traites + Flux(c, tampon, lectures[i..]).0 && total.1 == Flux(c, tampon, lectures[i..]).1
        invariant sortie == Sortie(repondre, env, envoyes, etat.Compteurs(), compte, tampon, lectures[i..])
        invariant etat.Compteurs() == Apres(env, r0, compte, traites)
        invariant !fin && (id in etat.sessions) == compte
        invariant |envoyes| >= |old(envoyes)| && sessionId == old(sessionId)
        invariant etat.sessions.Keys == old(etat.sessions).Keys && etat.totalConnexions == old(etat.totalConnexions)
      {
        ghost var traitesAvant, tamponAvant, envoyesAvant, rAvant := traites, tampon, envoyes, etat.Compteurs();
        var arret;
        ghost var lot;
        fin, arret, lot := TraiterLecture(etat, id, lectures[i]);
        assert etat.Compteurs() == Apres(env, rAvant, compte, lot);
        FluxPas(c, tamponAvant, lectures, i, traitesAvant, total, Tour(lot, tampon, fin, arret));
        SortiePas(repondre, env, envoyesAvant, rAvant, compte, tamponAvant, lectures, i, sortie, envoyes, Tour(lot, tampon, fin, arret));
        ApresConcat(env, r0, compte, traitesAvant, lot);
        traites := traites + lot;
        if arret {
          return;
        }
        i := i + 1;
      }
      assert traites + [] == traites && lectures[i..] == [];
    }

    /** The read loop of an authenticated session; `true` when it ends with the `Err` of a `Deconnexion`. */
    method TraiterMessages(etat: EtatServeurCalcul, id: string, lectures: seq<Lecture>) returns (fin: bool, ghost traites: seq<MessageProtocole>)
      requires etat.Valid() && Repond(repondre, env)
      modifies this, etat
      ensures etat.Valid()
      ensures traites == Flux(env.codec, old(tampon), lectures).0 && fin == Flux(env.codec, old(tampon), lectures).1
      ensures envoyes == Sortie(repondre, env, old(envoyes), old(etat.Compteurs()), id in old(etat.sessions), old(tampon), lectures)
      ensures etat.Compteurs() == Apres(env, old(etat.Compteurs()), id in old(etat.sessions), traites)
      ensures etat.totalCalculs == old(etat.totalCalculs) + if id in old(etat.sessions) then Calculs(env, traites) else 0
      ensures |envoyes| >= |old(envoyes)| && sessionId == old(sessionId)
      ensures etat.sessions.Keys == old(etat.sessions).Keys && etat.totalConnexions == old(etat.totalConnexions)
    {
      ghost var r0, compte := etat.Compteurs(), id in etat.sessions;
      fin, traites := BoucleMessages(etat, id, lectures);
      CalculsApres(env, r0, compte, traites);
    }

    /** Sends an error reply. */
    method EnvoyerErreur(code: string, description: string)
      modifies this
      ensures envoyes == old(envoyes) + [NouvelleErreur(env.uuid(|old(envoyes)|), env.horloge(|old(envoyes)|), code, description)]
      ensures tampon == old(tampon) && sessionId == old(sessionId)
    {
      envoyes := envoyes + [NouvelleErreur(env.uuid(|envoyes|), env.horloge(|envoyes|), code, description)];
    }

    /**
     * The handshake of `gerer_client`: decodes the first frame of the first
     * read, opens the session it names, and sends the confirmation or the
     * error. Nothing is sent when the first read brings no bytes.
     */
    method Poignee(etat: EtatServeurCalcul, premiere: Lecture) returns (p: Option<Poignee>)
      requires etat.Valid() && sessionId == None
      modifies this, etat
      ensures etat.Valid()
      ensures p == Accueil(env.codec, old(tampon), premiere, old(etat.sessions).Keys)
      ensures p.None? ==> envoyes == old(envoyes) && tampon == old(tampon)
      ensures p.Some? ==> envoyes == old(envoyes) + [MessagePoignee(env, |old(envoyes)|, p.value)]
      ensures p.Some? ==> tampon == ResteAccueil(env.codec, old(tampon), premiere)
      ensures p.Some? && p.value.Accepte? ==>
        && sessionId == Some(p.value.id)
        && etat.sessions.Keys == old(etat.sessions).Keys + {p.value.id}
        && etat.totalConnexions == old(etat.totalConnexions) + 1
        && etat.Compteurs() == Ouverture(old(etat.Compteurs()))
      ensures !(p.Some? && p.value.Accepte?) ==> sessionId == None && unchanged(etat)
    {
      if !(premiere.Octets? && premiere.donnees != []) {
        return None;
      }
      tampon := tampon + premiere.donnees;
      var lu := DepuisBytes(env.codec, tampon);
      if lu.Success? {
        tampon := tampon[lu.value.1..];
      }
      var q := RepondrePremier(etat, lu);
      p := Some(q);
    }

    /** The reply to the first frame read (or to the decoding error), opening the session when it is accepted. */
    method RepondrePremier(etat: EtatServeurCalcul, lu: Result<(MessageProtocole, nat), ErreurTrame>) returns (p: Poignee)
      requires etat.Valid() && sessionId == None
      modifies this, etat
      ensures etat.Valid()
      ensures p == ChoixPoignee(lu, old(etat.sessions).Keys)
      ensures envoyes == old(envoyes) + [MessagePoignee(env, |old(envoyes)|, p)]
      ensures tampon == old(tampon)
      ensures p.Accepte? ==>
        && sessionId == Some(p.id)
        && etat.sessions.Keys == old(etat.sessions).Keys + {p.id}
        && etat.totalConnexions == old(etat.totalConnexions) + 1
        && etat.Compteurs() == Ouverture(old(etat.Compteurs()))
      ensures p.Refus? ==> sessionId == None && unchanged(etat)
    {
      match lu {
        case Failure(_) =>
          EnvoyerErreur(MessageMalforme, "Message mal formé");
          p := Refus(MessageMalforme, "Message mal formé");
        case Success((message, _)) =>
          if message.typeOperation != Connexion {
            EnvoyerErreur(NonAuthentifie, "Connexion requise avant l'envoi de requêtes");
            p := Refus(NonAuthentifie, "Connexion requise avant l'envoi de requêtes");
          } else if message.sessionId.None? {
            EnvoyerErreur(SessionInvalide, "ID de session requis pour la connexion");
            p := Refus(SessionInvalide, "ID de session requis pour la connexion");
          } else {
            p := OuvrirSession(etat, message.sessionId.value);
          }
      }
    }

    /** The end of the handshake: opens the session `id` and sends the confirmation, or the error when `id` is already open. */
    method OuvrirSession(etat: EtatServeurCalcul, id: string) returns (p: Poignee)
      requires etat.Valid() && sessionId == None
      modifies this, etat
      ensures etat.Valid()
      ensures p == if id in old(etat.sessions) then Refus(SessionInvalide, "Session '" + id + "' déjà active") else Accepte(id)
      ensures envoyes == old(envoyes) + [MessagePoignee(env, |old(envoyes)|, p)]
      ensures tampon == old(tampon)
      ensures p.Accepte? ==>
        && sessionId == Some(id)
        && etat.sessions.Keys == old(etat.sessions).Keys + {id}
        && etat.totalConnexions == old(etat.totalConnexions) + 1
        && etat.Compteurs() == Ouverture(old(etat.Compteurs()))
      ensures p.Refus? ==> sessionId == None && unchanged(etat)
    {
      var r := etat.AjouterSession(id, adresse, env.horloge(|envoyes|));
      match r {
        case Success(_) =>
          sessionId := Some(id);
          envoyes := envoyes + [NouvelleConnexionOk(env.uuid(|envoyes|), env.horloge(|envoyes|), "Connexion réussie! Session: " + id)];
          p := Accepte(id);
        case Failure(erreur) =>
          EnvoyerErreur(SessionInvalide, erreur);
          p := Refus(SessionInvalide, erreur);
      }
    }

    /**
     * The part of `gerer_client` both endings share: the handshake and, for
     * an accepted session, its read loop. `fin` says whether that loop
     * stopped on a `Deconnexion`.
     */
    method Servir(etat: EtatServeurCalcul, premiere: Lecture, lectures: seq<Lecture>) returns (p: Option<Poignee>, fin: bool)
      requires etat.Valid() && sessionId == None && Repond(repondre, env)
      modifies this, etat
      ensures etat.Valid()
      ensures p == Accueil(env.codec, old(tampon), premiere, old(etat.sessions).Keys)
      ensures fin <==> p.Some? && p.value.Accepte? && Flux(env.codec, ResteAccueil(env.codec, old(tampon), premiere), lectures).1
      ensures envoyes == EnvoisClient(repondre, env, old(envoyes), old(etat.Compteurs()), old(etat.sessions).Keys, old(tampon), premiere, lectures)
      ensures var ouverte := p.Some? && p.value.Accepte?;
        && sessionId == (if ouverte then Some(p.value.id) else None)
        && (ouverte ==> p.value.id !in old(etat.sessions) && etat.sessions.Keys == old(etat.sessions).Keys + {p.value.id})
        && (!ouverte ==> etat.sessions.Keys == old(etat.sessions).Keys)
        && etat.totalConnexions == old(etat.totalConnexions) + (if ouverte then 1 else 0)
        && etat.totalCalculs == old(etat.totalCalculs)
             + (if ouverte then Calculs(env, Flux(env.codec, ResteAccueil(env.codec, old(tampon), premiere), lectures).0) else 0)
        && (p.None? ==> tampon == old(tampon))
        && (p.Some? && p.value.Refus? ==> tampon == ResteAccueil(env.codec, old(tampon), premiere))
    {
      fin := false;
      p := Poignee(etat, premiere);
      if p.Some? && p.value.Accepte? {
        ghost var traites;
        fin, traites := TraiterMessages(etat, p.value.id, lectures);
      }
    }

    /**
     * `gerer_client` as written: the session is removed at the end only when
     * the session loop returned normally. A `Deconnexion` makes the loop
     * return an `Err`, which the `?` after the call propagates past the
     * clean-up, so the session stays in the table.
     */
    method GererClient(etat: EtatServeurCalcul, premiere: Lecture, lectures: seq<Lecture>) returns (issue: Issue)
      requires etat.Valid() && sessionId == None && Repond(repondre, env)
      modifies this, etat
      ensures etat.Valid()
      ensures var p := Accueil(env.codec, old(tampon), premiere, old(etat.sessions).Keys);
        && (issue.Echec? <==>
              p.Some? && p.value.Accepte? && Flux(env.codec, ResteAccueil(env.codec, old(tampon), premiere), lectures).1)
        && (issue.Echec? ==>
              issue.raison == "Déconnexion volontaire" && etat.sessions.Keys == old(etat.sessions).Keys + {p.value.id})
        && (issue.Termine? ==> etat.sessions.Keys == old(etat.sessions).Keys)
      ensures envoyes == EnvoisClient(repondre, env, old(envoyes), old(etat.Compteurs()), old(etat.sessions).Keys, old(tampon), premiere, lectures)
      ensures var p := Accueil(env.codec, old(tampon), premiere, old(etat.sessions).Keys);
        var ouverte := p.Some? && p.value.Accepte?;
        && sessionId == (if ouverte then Some(p.value.id) else None)
        && etat.totalConnexions == old(etat.totalConnexions) + (if ouverte then 1 else 0)
        && etat.totalCalculs == old(etat.totalCalculs)
             + (if ouverte then Calculs(env, Flux(env.codec, ResteAccueil(env.codec, old(tampon), premiere), lectures).0) else 0)
        && (p.None? ==> tampon == old(tampon))
        && (p.Some? && p.value.Refus? ==> tampon == ResteAccueil(env.codec, old(tampon), premiere))
    {
      issue := Termine;
      ghost var cles := etat.sessions.Keys;
      var p, fin := Servir(etat, premiere, lectures);
      if fin {
        return Echec("Déconnexion volontaire");
      }
      if sessionId.Some? {
        RetraitCle(etat.sessions, sessionId.value, cles);
        etat.SupprimerSession(sessionId.value);
      }
    }

    /**
     * `gerer_client` with the clean-up on every path: whatever ends the
     * session, the table is left with exactly the ids it had before.
     */
    method GererClientCorrige(etat: EtatServeurCalcul, premiere: Lecture, lectures: seq<Lecture>) returns (issue: Issue)
      requires etat.Valid() && sessionId == None && Repond(repondre, env)
      modifies this, etat
      ensures etat.Valid()
      ensures var p := Accueil(env.codec, old(tampon), premiere, old(etat.sessions).Keys);
        issue.Echec? <==> p.Some? && p.value.Accepte? && Flux(env.codec, ResteAccueil(env.codec, old(tampon), premiere), lectures).1
      ensures etat.sessions.Keys == old(etat.sessions).Keys
      ensures envoyes == EnvoisClient(repondre, env, old(envoyes), old(etat.Compteurs()), old(etat.sessions).Keys, old(tampon), premiere, lectures)
      ensures var p := Accueil(env.codec, old(tampon), premiere, old(etat.sessions).Keys);
        var ouverte := p.Some? && p.value.Accepte?;
        && sessionId == (if ouverte then Some(p.value.id) else None)
        && etat.totalConnexions == old(etat.totalConnexions) + (if ouverte then 1 else 0)
        && etat.totalCalculs == old(etat.totalCalculs)
             + (if ouverte then Calculs(env, Flux(env.codec, ResteAccueil(env.codec, old(tampon), premiere), lectures).0) else 0)
        && (p.None? ==> tampon == old(tampon))
        && (p.Some? && p.value.Refus? ==> tampon == ResteAccueil(env.codec, old(tampon), premiere))
    {
      issue := Termine;
      ghost var cles := etat.sessions.Keys;
      var p, fin := Servir(etat, premiere, lectures);
      if fin {
        issue := Echec("Déconnexion volontaire");
      }
      if sessionId.Some? {
        RetraitCle(etat.sessions, sessionId.value, cles);
        etat.SupprimerSession(sessionId.value);
      }
    }
  }
}
