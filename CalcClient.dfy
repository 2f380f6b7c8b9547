/**
 * The calculation client: the command parser, the handshake reply it
 * accepts, and the interactive loop that sends one request per input line
 * and reads the reply into a reassembly buffer.
 */
module CalcClient {
  import opened Wrappers
  import opened Bytes
  import opened Externals
  import opened CalcProtocol
  import Text
  import CalcServer

  type Lecture = CalcServer.Lecture

  /**
   * What the client draws from outside the model: the JSON codec and
   * Rust's `f64` parser (`None` where `str::parse` fails).
   */
  datatype EnvClient = EnvClient(codec: Codec, parse: string -> Option<real>)

  /** Why a session of the client ends with `Err`. */
  datatype ErreurSession =
    | NonConnecte                       // "Non connecté au serveur"
    | OperandeInvalide(jeton: string)   // the `ParseFloatError` of an operand

  /** What `parser_commande` makes of the lower-cased first token. */
  datatype Commande =
    | Binaire(op: OperationMath)
    | Unaire(op: OperationMath)
    | DemandeInfo
    | DemandeStats
    | DemandePing
    | Inconnue

  /**
   * The keyword table. The source lowers the token with `to_lowercase`;
   * on these keywords that agrees with ASCII lowering, since the only
   * non-ASCII character that lowers to an ASCII letter is the Kelvin sign
   * and no keyword holds a 'k'.
   */
  function MotCle(mot: string): Commande
  {
    Mot(Text.LowerAscii(mot))
  }

  /** The keyword table on a token already lowered. */
  function Mot(m: string): Commande
  {
    match m
    case "addition" | "add" => Binaire(Addition)
    case "soustraction" | "sub" => Binaire(Soustraction)
    case "multiplication" | "mul" => Binaire(Multiplication)
    case "division" | "div" => Binaire(Division)
    case "puissance" | "pow" => Binaire(Puissance)
    case "racine" | "sqrt" => Unaire(Racine)
    case "factorielle" | "fact" => Unaire(Factorielle)
    case "fibonacci" | "fib" => Unaire(Fibonacci)
    case "info" => DemandeInfo
    case "stats" => DemandeStats
    case "ping" => DemandePing
    case _ => Inconnue
  }

  /** The short spellings and the full keyword each stands for. */
  const Alias: map<string, string> := map[
    "add" := "addition", "sub" := "soustraction", "mul" := "multiplication",
    "div" := "division", "pow" := "puissance", "sqrt" := "racine",
    "fact" := "factorielle", "fib" := "fibonacci"]

  /** Each alias names the same operation as its full keyword. */
  lemma AliasMemeCommande(alias: string)
    requires alias in Alias
    ensures MotCle(alias) == MotCle(Alias[alias]) && MotCle(alias) != Inconnue
  {
    Text.LowerAsciiMinuscules(alias);
    Text.LowerAsciiMinuscules(Alias[alias]);
  }

  /** Keywords are matched whatever the case of their ASCII letters. */
  lemma MotCleSansCasse(u: string, v: string)
    requires Text.EqIgnoreAsciiCase(u, v)
    ensures MotCle(u) == MotCle(v)
  {
  }

  /** The number of operands a command takes; 0 for those that take none. */
  function Arite(c: Commande): nat
  {
    match c
    case Binaire(_) => 2
    case Unaire(_) => 1
    case _ => 0
  }

  /**
   * `parser_commande` on the token vector: `Ok(None)` for no tokens, an
   * unknown keyword or a wrong number of operands; `Err` for the first
   * operand that does not parse; otherwise the message to send, built with
   * the fresh `id` and `now`.
   */
  function ParserParties(sid: string, parties: seq<string>, parse: string -> Option<real>, id: Uuid, now: Timestamp)
    : (r: Result<Option<MessageProtocole>, ErreurSession>)
    ensures r.Failure? ==> r.error.OperandeInvalide?
  {
    if parties == [] then Success(None)
    else
      match MotCle(parties[0])
      case Binaire(op) =>
        if |parties| != 3 then Success(None)
        else if parse(parties[1]).None? then Failure(OperandeInvalide(parties[1]))
        else if parse(parties[2]).None? then Failure(OperandeInvalide(parties[2]))
        else
          var requete := RequeteCalcul(op, parse(parties[1]).value, Some(parse(parties[2]).value));
          Success(Some(NouvelleRequeteCalcul(id, now, sid, requete)))
      case Unaire(op) =>
        if |parties| != 2 then Success(None)
        else if parse(parties[1]).None? then Failure(OperandeInvalide(parties[1]))
        else Success(Some(NouvelleRequeteCalcul(id, now, sid, RequeteCalcul(op, parse(parties[1]).value, None))))
      case DemandeInfo => Success(Some(NouvelleDemandeInfoServeur(id, now, sid)))
      case DemandeStats => Success(Some(NouvelleDemandeStatistiques(id, now, sid)))
      case DemandePing => Success(Some(NouveauPing(id, now)))
      case Inconnue => Success(None)
  }

  /**
   * `Err` comes only from a command given the right number of operands,
   * and names the first operand that does not parse.
   */
  lemma ParserEchec(sid: string, parties: seq<string>, parse: string -> Option<real>, id: Uuid, now: Timestamp)
    ensures var r := ParserParties(sid, parties, parse, id, now);
      (r.Failure? <==>
        parties != [] && Arite(MotCle(parties[0])) > 0 && |parties| == 1 + Arite(MotCle(parties[0]))
        && exists j | 1 <= j < |parties| :: parse(parties[j]).None?)
      && (r.Failure? ==> exists j | 1 <= j < |parties| ::
            r.error == OperandeInvalide(parties[j]) && parse(parties[j]).None?
            && forall i | 1 <= i < j :: parse(parties[i]).Some?)
  {
  }

  /** `parser_commande`: the input is split at Unicode white space first. */
  function ParserCommande(sid: string, input: string, parse: string -> Option<real>, id: Uuid, now: Timestamp)
    : (r: Result<Option<MessageProtocole>, ErreurSession>)
    ensures (forall i | 0 <= i < |input| :: Text.IsWhitespace(input[i])) ==> r == Success(None)
    ensures r.Failure? ==> r.error.OperandeInvalide?
  {
    Text.SplitWhitespaceEmpty(input);
    ParserParties(sid, Text.SplitWhitespace(input), parse, id, now)
  }

  /** An alias in first position parses exactly as its full keyword would. */
  lemma ParserAlias(sid: string, parties: seq<string>, parse: string -> Option<real>, id: Uuid, now: Timestamp)
    requires parties != [] && parties[0] in Alias
    ensures ParserParties(sid, parties, parse, id, now)
         == ParserParties(sid, [Alias[parties[0]]] + parties[1..], parse, id, now)
  {
    AliasMemeCommande(parties[0]);
  }

  /** How the client goes on after one input line. */
  datatype Suite = Continuer | Arreter | Echouer(erreur: ErreurSession)

  /**
   * One read of the reply to a request (`Ok(Ok(0))` is `Octets([])`):
   * the reply handed to `traiter_reponse`, the new buffer, and whether the
   * loop goes on. A frame is decoded only once the buffer holds 4 bytes,
   * and exactly the consumed bytes are drained off its front.
   */
  function Reponse(c: Codec, tampon: seq<uint8>, l: Lecture): (r: (Option<MessageProtocole>, seq<uint8>, Suite))
    ensures r.2 == Arreter <==> l == CalcServer.Octets([]) || l.ErreurLecture?
    ensures r.2 != Arreter ==> r.2 == Continuer
    ensures r.0.Some? ==>
      l.Octets? && |tampon + l.donnees| >= 4
      && DepuisBytes(c, tampon + l.donnees) == Success((r.0.value, |tampon + l.donnees| - |r.1|))
    ensures l.Octets? && l.donnees != [] ==> Text.EndsWith(tampon + l.donnees, r.1)
    ensures l.Octets? && l.donnees != [] && r.0.None? ==> r.1 == tampon + l.donnees && DepuisBytes(c, r.1).Failure?
    ensures !(l.Octets? && l.donnees != []) ==> r.0 == None && r.1 == tampon
  {
    match l
    case Octets(d) =>
      if d == [] then (None, tampon, Arreter)
      else
        var t := tampon + d;
        if |t| >= 4 then
          match DepuisBytes(c, t)
          case Success((m, n)) => (Some(m), t[n..], Continuer)
          case Failure(_) => (None, t, Continuer)
        else (None, t, Continuer)
    case ErreurLecture => (None, tampon, Arreter)
    case Delai => (None, tampon, Continuer)
  }

  /** A reply that arrives whole in one read is handled and leaves only what follows it. */
  lemma ReponseEntiere(c: Codec, tampon: seq<uint8>, m: MessageProtocole, suite: seq<uint8>)
    requires RoundTrips(c) && |JsonBytes(c, m)| < TailleMax
    requires tampon + VersBytes(c, m) == VersBytes(c, m) + suite
    ensures Reponse(c, tampon, CalcServer.Octets(VersBytes(c, m))) == (Some(m), suite, Continuer)
  {
    DepuisVersBytes(c, m, suite);
    assert (tampon + VersBytes(c, m))[|VersBytes(c, m)|..] == suite;
  }

  /** A reply split over two reads is handled on the second one, and the buffer ends empty. */
  lemma ReponseEnDeuxLectures(c: Codec, m: MessageProtocole, k: nat)
    requires RoundTrips(c) && |JsonBytes(c, m)| < TailleMax
    requires 0 < k < |VersBytes(c, m)|
    ensures
      var trame := VersBytes(c, m);
      var premiere := Reponse(c, [], CalcServer.Octets(trame[..k]));
      premiere == (None, trame[..k], Continuer)
      && Reponse(c, premiere.1, CalcServer.Octets(trame[k..])) == (Some(m), [], Continuer)
  {
    var trame := VersBytes(c, m);
    DepuisBytesTronque(c, m, k);
    assert [] + trame[..k] == trame[..k];
    assert trame[..k] + trame[k..] == trame + [];
    DepuisVersBytes(c, m, []);
  }

  /**
   * One input line, with what its turn draws from outside the model: the
   * fresh id and clock reading a message built for it carries, and the
   * socket read that follows the request it may send.
   */
  datatype Saisie = Saisie(ligne: string, id: Uuid, now: Timestamp, reponse: Lecture)

  /** What `boucle_principale` makes of a line before anything is read. */
  datatype Action =
    | Ignorer                                   // an empty line, or `parser_commande` returned `Ok(None)`
    | Quitter(deconnexion: MessageProtocole)    // `quit`: send `Deconnexion` and break
    | Abandonner(erreur: ErreurSession)         // `parser_commande` returned `Err`
    | Envoyer(requete: MessageProtocole)        // a request to send

  /**
   * The trimmed line is skipped when empty; `quit`, in any ASCII case,
   * sends `Deconnexion` without being parsed; anything else goes to
   * `parser_commande`.
   */
  function Decision(parse: string -> Option<real>, sid: string, s: Saisie): Action
  {
    var ligne := Text.Trim(s.ligne);
    if ligne == [] then Ignorer
    else if Text.EqIgnoreAsciiCase(ligne, "quit") then Quitter(NouvelleDeconnexion(s.id, s.now, sid))
    else
      match ParserCommande(sid, ligne, parse, s.id, s.now)
      case Failure(e) => Abandonner(e)
      case Success(None) => Ignorer
      case Success(Some(m)) => Envoyer(m)
  }

  /**
   * An empty line is skipped; a trimmed line that is `quit` in any ASCII
   * case ends the session; any other line is handled as `parser_commande` says, and
   * `Err` only ever names an operand.
   */
  lemma DecisionLigne(parse: string -> Option<real>, sid: string, s: Saisie)
    ensures var a := Decision(parse, sid, s);
      (Text.Trim(s.ligne) == [] ==> a == Ignorer)
      && (Text.EqIgnoreAsciiCase(Text.Trim(s.ligne), "quit") ==> a == Quitter(NouvelleDeconnexion(s.id, s.now, sid)))
      && (a.Abandonner? ==> a.erreur.OperandeInvalide?)
    ensures var a := Decision(parse, sid, s);
      Text.Trim(s.ligne) != [] && !Text.EqIgnoreAsciiCase(Text.Trim(s.ligne), "quit") ==>
        var r := ParserCommande(sid, Text.Trim(s.ligne), parse, s.id, s.now);
        (a.Abandonner? <==> r.Failure?) && (a.Envoyer? <==> r.Success? && r.value.Some?)
        && (a.Abandonner? ==> a.erreur == r.error) && (a.Envoyer? ==> a.requete == r.value.value)
  {
  }

  /** What one turn of `boucle_principale` does. */
  datatype PasClient = PasClient(envoi: Option<MessageProtocole>, recu: Option<MessageProtocole>, tampon: seq<uint8>, suite: Suite)

  /**
   * One turn once the line is decided: only a request is followed by a
   * read, and only that read can bring a reply or change the buffer.
   */
  function Tour(c: Codec, tampon: seq<uint8>, a: Action, l: Lecture): (p: PasClient)
    ensures p.recu.Some? || p.tampon != tampon ==> a.Envoyer?
    ensures p.envoi.Some? <==> a.Quitter? || a.Envoyer?
    ensures a.Envoyer? ==> p.envoi == Some(a.requete) && (p.recu, p.tampon, p.suite) == Reponse(c, tampon, l)
    ensures a.Quitter? ==> p == PasClient(Some(a.deconnexion), None, tampon, Arreter)
    ensures p.suite.Echouer? <==> a.Abandonner?
  {
    match a
    case Ignorer => PasClient(None, None, tampon, Continuer)
    case Quitter(m) => PasClient(Some(m), None, tampon, Arreter)
    case Abandonner(e) => PasClient(None, None, tampon, Echouer(e))
    case Envoyer(m) =>
      var (recu, t, suite) := Reponse(c, tampon, l);
      PasClient(Some(m), recu, t, suite)
  }

  /** The messages an optional one stands for. */
  function Liste(o: Option<MessageProtocole>): seq<MessageProtocole>
  {
    if o.Some? then [o.value] else []
  }

  /** How a run of `boucle_principale` over the given lines ends. */
  datatype Issue =
    | Terminee                       // the loop broke: `quit`, a closed socket or a read error
    | Echouee(erreur: ErreurSession) // `Err` propagated out of the loop
    | EnCours                        // the lines ran out with the loop still waiting for input

  datatype Bilan = Bilan(envoyes: seq<MessageProtocole>, recus: seq<MessageProtocole>, issue: Issue)

  /** One turn followed by the rest of the session. */
  function Enchainer(p: PasClient, suite: Bilan): Bilan
  {
    Bilan(Liste(p.envoi) + suite.envoyes, Liste(p.recu) + suite.recus, suite.issue)
  }

  /** A turn followed by `reste`, the turns after it, when the loop goes on. */
  function Suivre(p: PasClient, reste: Bilan): Bilan
  {
    match p.suite
    case Continuer => Enchainer(p, reste)
    case Arreter => Enchainer(p, Bilan([], [], Terminee))
    case Echouer(err) => Enchainer(p, Bilan([], [], Echouee(err)))
  }

  /** The loop over decided lines and the reads that follow them. */
  function Deroule(c: Codec, tampon: seq<uint8>, actions: seq<Action>, lectures: seq<Lecture>): Bilan
    requires |actions| == |lectures|
    decreases |actions|
  {
    if actions == [] then Bilan([], [], EnCours)
    else
      var p := Tour(c, tampon, actions[0], lectures[0]);
      Suivre(p, Deroule(c, p.tampon, actions[1..], lectures[1..]))
  }

  /** What was done before, followed by the rest of a run. */
  function Apres(faitsE: seq<MessageProtocole>, faitsR: seq<MessageProtocole>, reste: Bilan): Bilan
  {
    Bilan(faitsE + reste.envoyes, faitsR + reste.recus, reste.issue)
  }

  /** The bookkeeping of one turn of the loop: what it adds to what was done, and how the run goes on. */
  lemma DerouleAvance(c: Codec, tampon: seq<uint8>, actions: seq<Action>, lectures: seq<Lecture>, i: nat,
                      faitsE: seq<MessageProtocole>, faitsR: seq<MessageProtocole>)
    requires |actions| == |lectures| && i < |actions|
    ensures var p := Tour(c, tampon, actions[i], lectures[i]);
      var e, r := faitsE + Liste(p.envoi), faitsR + Liste(p.recu);
      var avant := Apres(faitsE, faitsR, Deroule(c, tampon, actions[i..], lectures[i..]));
      match p.suite
      case Continuer => avant == Apres(e, r, Deroule(c, p.tampon, actions[i + 1..], lectures[i + 1..]))
      case Arreter => avant == Bilan(e, r, Terminee)
      case Echouer(err) => avant == Bilan(e, r, Echouee(err))
  {
    DerouleDe(c, tampon, actions, lectures, i);
    var p := Tour(c, tampon, actions[i], lectures[i]);
    var suivant := Deroule(c, p.tampon, actions[i + 1..], lectures[i + 1..]);
    Text.Concat3(faitsE, Liste(p.envoi), suivant.envoyes);
    Text.Concat3(faitsR, Liste(p.recu), suivant.recus);
    assert Liste(p.envoi) + [] == Liste(p.envoi) && Liste(p.recu) + [] == Liste(p.recu);
  }

  /** A run with no line left adds nothing. */
  lemma DerouleFin(c: Codec, tampon: seq<uint8>, actions: seq<Action>, lectures: seq<Lecture>,
                   faitsE: seq<MessageProtocole>, faitsR: seq<MessageProtocole>)
    requires |actions| == |lectures|
    ensures Apres(faitsE, faitsR, Deroule(c, tampon, actions[|actions|..], lectures[|lectures|..])) == Bilan(faitsE, faitsR, EnCours)
  {
    assert faitsE + [] == faitsE && faitsR + [] == faitsR;
  }

  /** The loop from its `i`-th line: one turn, followed by the rest when it goes on. */
  lemma DerouleDe(c: Codec, tampon: seq<uint8>, actions: seq<Action>, lectures: seq<Lecture>, i: nat)
    requires |actions| == |lectures| && i < |actions|
    ensures var p := Tour(c, tampon, actions[i], lectures[i]);
      Deroule(c, tampon, actions[i..], lectures[i..]) == Suivre(p, Deroule(c, p.tampon, actions[i + 1..], lectures[i + 1..]))
  {
    assert actions[i..][0] == actions[i] && lectures[i..][0] == lectures[i];
    assert actions[i..][1..] == actions[i + 1..] && lectures[i..][1..] == lectures[i + 1..];
  }

  function Decisions(parse: string -> Option<real>, sid: string, saisies: seq<Saisie>): seq<Action>
  {
    seq(|saisies|, i requires 0 <= i < |saisies| => Decision(parse, sid, saisies[i]))
  }

  function Lectures(saisies: seq<Saisie>): seq<Lecture>
  {
    seq(|saisies|, i requires 0 <= i < |saisies| => saisies[i].reponse)
  }

  /** The messages sent, the replies handled and the outcome of `boucle_principale` over `saisies`. */
  function Session(env: EnvClient, sid: string, saisies: seq<Saisie>): Bilan
  {
    Deroule(env.codec, [], Decisions(env.parse, sid, saisies), Lectures(saisies))
  }

  /** The session of a first line followed by others. */
  lemma SessionCons(env: EnvClient, sid: string, s: Saisie, reste: seq<Saisie>)
    ensures Session(env, sid, [s] + reste)
         == Suivre(Tour(env.codec, [], Decision(env.parse, sid, s), s.reponse),
                   Deroule(env.codec, Tour(env.codec, [], Decision(env.parse, sid, s), s.reponse).tampon,
                           Decisions(env.parse, sid, reste), Lectures(reste)))
  {
    var saisies := [s] + reste;
    assert Decisions(env.parse, sid, saisies)[1..] == Decisions(env.parse, sid, reste);
    assert Lectures(saisies)[1..] == Lectures(reste);
  }

  /** Lines after a `quit` are never read: the session sends `Deconnexion` and ends. */
  lemma SessionQuit(env: EnvClient, sid: string, s: Saisie, reste: seq<Saisie>)
    requires Text.EqIgnoreAsciiCase(Text.Trim(s.ligne), "quit")
    ensures Session(env, sid, [s] + reste) == Bilan([NouvelleDeconnexion(s.id, s.now, sid)], [], Terminee)
  {
    SessionCons(env, sid, s, reste);
  }

  /**
   * A request whose reply arrives whole in the read that follows it is
   * sent, the reply is handled, and the buffer is left empty for the rest.
   */
  lemma SessionReponse(env: EnvClient, sid: string, s: Saisie, reste: seq<Saisie>, r: MessageProtocole)
    requires RoundTrips(env.codec) && |JsonBytes(env.codec, r)| < TailleMax
    requires Decision(env.parse, sid, s).Envoyer? && s.reponse == CalcServer.Octets(VersBytes(env.codec, r))
    ensures Session(env, sid, [s] + reste)
         == Enchainer(PasClient(Some(Decision(env.parse, sid, s).requete), Some(r), [], Continuer), Session(env, sid, reste))
  {
    SessionCons(env, sid, s, reste);
    ReponseEntiere(env.codec, [], r, []);
  }

  /** A run sends at most one message per line and handles at most one reply per message sent. */
  lemma {:induction false} DerouleBornes(c: Codec, tampon: seq<uint8>, actions: seq<Action>, lectures: seq<Lecture>)
    requires |actions| == |lectures|
    ensures |Deroule(c, tampon, actions, lectures).recus| <= |Deroule(c, tampon, actions, lectures).envoyes| <= |actions|
    decreases |actions|
  {
    if actions != [] {
      var p := Tour(c, tampon, actions[0], lectures[0]);
      DerouleBornes(c, p.tampon, actions[1..], lectures[1..]);
    }
  }

  /** A run ends with `Err` only on a line whose command could not be parsed. */
  lemma {:induction false} DerouleEchec(c: Codec, tampon: seq<uint8>, actions: seq<Action>, lectures: seq<Lecture>)
    requires |actions| == |lectures|
    requires Deroule(c, tampon, actions, lectures).issue.Echouee?
    ensures exists i | 0 <= i < |actions| :: actions[i] == Abandonner(Deroule(c, tampon, actions, lectures).issue.erreur)
    decreases |actions|
  {
    var p := Tour(c, tampon, actions[0], lectures[0]);
    if p.suite == Continuer {
      DerouleEchec(c, p.tampon, actions[1..], lectures[1..]);
      var i :| 0 <= i < |actions[1..]| && actions[1..][i] == Abandonner(Deroule(c, tampon, actions, lectures).issue.erreur);
      assert actions[i + 1] == actions[1..][i];
    }
  }

  /** A session sends at most one message per line, and ends with `Err` only on an operand that does not parse. */
  lemma SessionBornes(env: EnvClient, sid: string, saisies: seq<Saisie>)
    ensures |Session(env, sid, saisies).recus| <= |Session(env, sid, saisies).envoyes| <= |saisies|
    ensures Session(env, sid, saisies).issue.Echouee? ==> Session(env, sid, saisies).issue.erreur.OperandeInvalide?
  {
    var actions := Decisions(env.parse, sid, saisies);
    DerouleBornes(env.codec, [], actions, Lectures(saisies));
    if Session(env, sid, saisies).issue.Echouee? {
      DerouleEchec(env.codec, [], actions, Lectures(saisies));
      var i :| 0 <= i < |actions| && actions[i] == Abandonner(Session(env, sid, saisies).issue.erreur);
      DecisionLigne(env.parse, sid, saisies[i]);
    }
  }

  /** How the handshake fails on the client side. */
  datatype ErreurConnexion =
    | DelaiConnexion                 // "Timeout lors de la connexion": no bytes, a read error or the timeout
    | Refus(texte: string)           // "Erreur de connexion: " followed by this text
    | ReponseInattendue              // "Réponse inattendue du serveur"
    | ReponseIllisible(cause: ErreurTrame) // "Erreur de parsing: " followed by the decoding error

  /**
   * The confirmation that `connecter` expects: the first frame of the first
   * read must be a `ConnexionOk`; an `Erreur` reply is reported with its
   * `contenu`, or "Erreur inconnue" when it has none.
   */
  function Confirmation(c: Codec, premiere: Lecture): (r: Result<MessageProtocole, ErreurConnexion>)
    ensures r.Success? <==>
      premiere.Octets? && premiere.donnees != [] && DepuisBytes(c, premiere.donnees).Success?
      && DepuisBytes(c, premiere.donnees).value.0.typeOperation == ConnexionOk
    ensures r.Success? ==> r.value == DepuisBytes(c, premiere.donnees).value.0
    ensures r == Failure(DelaiConnexion) <==> !(premiere.Octets? && premiere.donnees != [])
    ensures r.Failure? && r.error.Refus? ==>
      premiere.Octets? && DepuisBytes(c, premiere.donnees).Success?
      && DepuisBytes(c, premiere.donnees).value.0.typeOperation == Erreur
    ensures r.Failure? && r.error.ReponseIllisible? ==> premiere.Octets? && DepuisBytes(c, premiere.donnees) == Failure(r.error.cause)
  {
    match premiere
    case Octets(d) =>
      if d == [] then Failure(DelaiConnexion)
      else
        match DepuisBytes(c, d) {
          case Failure(e) => Failure(ReponseIllisible(e))
          case Success((m, _)) =>
            if m.typeOperation == ConnexionOk then Success(m)
            else if m.typeOperation == Erreur then
              Failure(Refus(if m.contenu.Some? then m.contenu.value else "Erreur inconnue"))
            else Failure(ReponseInattendue)
        }
    case _ => Failure(DelaiConnexion)
  }

  /**
   * The server's error replies carry their code and description in
   * `donnees` and leave `contenu` empty, so a refused handshake is always
   * reported as "Erreur inconnue".
   */
  lemma RefusSansDetail(c: Codec, id: Uuid, now: Timestamp, code: string, description: string, suite: seq<uint8>)
    requires RoundTrips(c)
    requires |JsonBytes(c, NouvelleErreur(id, now, code, description))| < TailleMax
    ensures Confirmation(c, CalcServer.Octets(VersBytes(c, NouvelleErreur(id, now, code, description)) + suite))
         == Failure(Refus("Erreur inconnue"))
  {
    DepuisVersBytes(c, NouvelleErreur(id, now, code, description), suite);
  }

  class ClientCalcul {
    const env: EnvClient
    const sessionId: string
    var connecte: bool
    /** The messages written to the socket, in order. */
    var envoyes: seq<MessageProtocole>
    /** The replies handed to `traiter_reponse`, in order. */
    var recus: seq<MessageProtocole>

    /** A client whose handshake succeeded, with the `Connexion` message it sent. */
    constructor (env: EnvClient, sessionId: string, connexion: MessageProtocole)
      ensures this.env == env && this.sessionId == sessionId
      ensures connecte && envoyes == [connexion] && recus == []
    {
      this.env := env;
      this.sessionId := sessionId;
      connecte := true;
      envoyes := [connexion];
      recus := [];
    }

    /** Reads the reply to a request into the buffer and hands over the frame at its front. */
    method LireReponse(tampon: seq<uint8>, l: Lecture) returns (t: seq<uint8>, suite: Suite)
      modifies this
      ensures var r := Reponse(env.codec, tampon, l);
        recus == old(recus) + Liste(r.0) && t == r.1 && suite == r.2
      ensures envoyes == old(envoyes) && connecte == old(connecte)
    {
      t, suite := tampon, Continuer;
      match l {
        case Octets(d) =>
          if d == [] {
            suite := Arreter;
            return;
          }
          t := t + d;
          if |t| >= 4 {
            match DepuisBytes(env.codec, t) {
              case Success((m, n)) =>
                t := t[n..];
                recus := recus + [m];
              case Failure(_) =>
            }
          }
        case ErreurLecture =>
          suite := Arreter;
        case Delai =>
      }
    }

    /** One turn of `boucle_principale`. */
    method TraiterSaisie(tampon: seq<uint8>, s: Saisie) returns (t: seq<uint8>, suite: Suite)
      modifies this
      ensures var p := Tour(env.codec, tampon, Decision(env.parse, sessionId, s), s.reponse);
        envoyes == old(envoyes) + Liste(p.envoi) && recus == old(recus) + Liste(p.recu)
        && t == p.tampon && suite == p.suite
      ensures connecte == old(connecte)
    {
      t, suite := tampon, Continuer;
      var ligne := Text.Trim(s.ligne);
      if ligne == [] {
        return;
      }
      if Text.EqIgnoreAsciiCase(ligne, "quit") {
        envoyes := envoyes + [NouvelleDeconnexion(s.id, s.now, sessionId)];
        suite := Arreter;
        return;
      }
      var commande := ParserCommande(sessionId, ligne, env.parse, s.id, s.now);
      match commande {
        case Failure(e) =>
          suite := Echouer(e);
        case Success(None) =>
        case Success(Some(m)) =>
          envoyes := envoyes + [m];
          t, suite := LireReponse(tampon, s.reponse);
      }
    }

    /**
     * `boucle_principale` over the given input lines. `connecte` is cleared
     * only when the loop breaks; an operand error returns before that.
     */
    method BouclePrincipale(saisies: seq<Saisie>) returns (issue: Issue)
      modifies this
      ensures Apres(old(envoyes), old(recus), Session(env, sessionId, saisies)) == Bilan(envoyes, recus, issue)
      ensures connecte == (old(connecte) && !issue.Terminee?)
    {
      var tampon: seq<uint8> := [];
      ghost var actions := Decisions(env.parse, sessionId, saisies);
      ghost var lectures := Lectures(saisies);
      ghost var total := Apres(envoyes, recus, Deroule(env.codec, tampon, actions, lectures));
      var i := 0;
      assert actions[i..] == actions && lectures[i..] == lectures;
      while i < |saisies|
        invariant 0 <= i <= |saisies|
        invariant total == Apres(envoyes, recus, Deroule(env.codec, tampon, actions[i..], lectures[i..]))
        invariant connecte == old(connecte)
      {
        assert actions[i] == Decision(env.parse, sessionId, saisies[i]) && lectures[i] == saisies[i].reponse;
        DerouleAvance(env.codec, tampon, actions, lectures, i, envoyes, recus);
        var suite;
        tampon, suite := TraiterSaisie(tampon, saisies[i]);
        if suite == Arreter {
          connecte := false;
          issue := Terminee;
          return;
        }
        if suite.Echouer? {
          issue := Echouee(suite.erreur);
          return;
        }
        i := i + 1;
      }
      DerouleFin(env.codec, tampon, actions, lectures, envoyes, recus);
      issue := EnCours;
    }

    /** `demarrer_session`: refused unless connected, otherwise the main loop. */
    method DemarrerSession(saisies: seq<Saisie>) returns (issue: Issue)
      modifies this
      ensures !old(connecte) ==> issue == Echouee(NonConnecte) && unchanged(this)
      ensures old(connecte) ==>
        && Apres(old(envoyes), old(recus), Session(env, sessionId, saisies)) == Bilan(envoyes, recus, issue)
        && connecte == !issue.Terminee?
    {
      if !connecte {
        return Echouee(NonConnecte);
      }
      issue := BouclePrincipale(saisies);
    }
  }

  /**
   * `connecter`: sends `Connexion` with the session id, then reads the
   * confirmation; the client exists, connected, only when it is `ConnexionOk`.
   */
  method Connecter(env: EnvClient, sessionId: string, id: Uuid, now: Timestamp, premiere: Lecture) returns (r: Result<ClientCalcul, ErreurConnexion>)
    ensures r.Success? <==> Confirmation(env.codec, premiere).Success?
    ensures r.Failure? ==> r.error == Confirmation(env.codec, premiere).error
    ensures r.Success? ==>
      fresh(r.value) && r.value.env == env && r.value.sessionId == sessionId
      && r.value.connecte && r.value.recus == []
      && r.value.envoyes == [NouvelleConnexion(id, now, sessionId)]
  {
    var connexion := NouvelleConnexion(id, now, sessionId);
    match Confirmation(env.codec, premiere) {
      case Success(_) =>
        var client := new ClientCalcul(env, sessionId, connexion);
        r := Success(client);
      case Failure(e) =>
        r := Failure(e);
    }
  }
}
