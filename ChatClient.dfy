/**
 * The chat client: creating it, the connection handshake, what it shows
 * of the messages it receives, the input loop that turns typed lines into
 * frames (chat text, a simulated file, the departure), and the server URL
 * it asks for.
 */
module ChatClient {
  import opened Wrappers
  import opened Bytes
  import Utf8
  import opened Externals
  import Text
  import opened ChatMessage
  import ChatServer

  // ---------------------------------------------------------------------
  // What the listener task shows.
  // ---------------------------------------------------------------------

  /** What `traiter_message_recu` prints: a message, the users list, or a ping or pong notice. */
  datatype Affichage = AfficheMessage(m: MessageWebSocket) | AfficheListe(noms: seq<string>) | PingRecu | PongRecu

  /**
   * Chat messages are shown unless they are the user's own (server chat
   * messages have no sender and are shown); files only when another user
   * sent them; notifications, arrivals and departures always; a users list
   * only when its metadata reads as a list of names; list requests never.
   */
  function TraiterMessageRecu(m: MessageWebSocket, nom: string): (r: Option<Affichage>)
    ensures r.Some? && r.value.AfficheMessage? ==> r.value.m == m
    ensures m.typeMessage == Chat ==> (r.Some? <==> m.utilisateur != Some(nom))
    ensures m.typeMessage == Binaire ==> (r.Some? <==> m.utilisateur.Some? && m.utilisateur != Some(nom))
    ensures m.typeMessage in {Notification, Connexion, Deconnexion, Ping, Pong} ==> r.Some?
    ensures m.typeMessage == DemandeUtilisateurs ==> r.None?
    ensures m.typeMessage == ListeUtilisateurs ==>
      r == (if m.metadonnees.Some? && NomsJson(m.metadonnees.value).Some?
            then Some(AfficheListe(NomsJson(m.metadonnees.value).value)) else None)
  {
    match m.typeMessage
    case Chat => if m.utilisateur == Some(nom) then None else Some(AfficheMessage(m))
    case Binaire => if m.utilisateur.Some? && m.utilisateur.value != nom then Some(AfficheMessage(m)) else None
    case Notification => Some(AfficheMessage(m))
    case Connexion => Some(AfficheMessage(m))
    case Deconnexion => Some(AfficheMessage(m))
    case ListeUtilisateurs =>
      if m.metadonnees.Some? then
        match NomsJson(m.metadonnees.value)
        case Some(noms) => Some(AfficheListe(noms))
        case None => None
      else None
    case Ping => Some(PingRecu)
    case Pong => Some(PongRecu)
    case DemandeUtilisateurs => None
  }

  /**
   * For the chat and file messages users send, the client's own filter
   * agrees with the server's: what the server forwards to `nom` is exactly
   * what `nom`'s client shows.
   */
  lemma AffichageSelonLivraison(m: MessageWebSocket, nom: string)
    requires BienForme(m) && m.typeMessage in {Chat, Binaire}
    ensures TraiterMessageRecu(m, nom).Some? <==> ChatServer.Livrer(nom, m)
  {
  }

  /** A users list the server built is shown with exactly its names, in its order. */
  lemma AffichageListe(id: Uuid, now: Timestamp, noms: seq<string>, nom: string)
    ensures TraiterMessageRecu(NouvelleListeUtilisateurs(id, now, noms), nom) == Some(AfficheListe(noms))
  {
  }

  /** What the listener shows for the frames it reads: it skips unreadable frames and stops at a stream error. */
  function Ecoute(c: Codec, nom: string, lectures: seq<ChatServer.LectureWs>): seq<Affichage>
  {
    if lectures == [] then []
    else match lectures[0]
      case ErreurFlux => []
      case Recue(t) => Vu(c, nom, t) + Ecoute(c, nom, lectures[1..])
  }

  /** What one frame shows: nothing when it does not read as a message. */
  function Vu(c: Codec, nom: string, t: Trame): (r: seq<Affichage>)
    ensures |r| <= 1
  {
    match DepuisMessageWebSocket(c, t)
    case Failure(_) => []
    case Success(m) => (match TraiterMessageRecu(m, nom) case Some(a) => [a] case None => [])
  }

  lemma EcouteDe(c: Codec, nom: string, lectures: seq<ChatServer.LectureWs>, i: nat)
    requires i < |lectures|
    ensures Ecoute(c, nom, lectures[i..])
      == if lectures[i].ErreurFlux? then [] else Vu(c, nom, lectures[i].trame) + Ecoute(c, nom, lectures[i + 1..])
  {
    assert lectures[i..][1..] == lectures[i + 1..];
  }

  /** A stream error hides everything the server sends after it. */
  lemma {:induction false} EcouteCoupee(c: Codec, nom: string, avant: seq<ChatServer.LectureWs>, apres: seq<ChatServer.LectureWs>)
    requires forall k | 0 <= k < |avant| :: avant[k].Recue?
    ensures Ecoute(c, nom, avant + [ChatServer.ErreurFlux] + apres) == Ecoute(c, nom, avant)
    decreases |avant|
  {
    if avant == [] {
      assert avant + [ChatServer.ErreurFlux] + apres == [ChatServer.ErreurFlux] + apres;
    } else {
      assert (avant + [ChatServer.ErreurFlux] + apres)[1..] == avant[1..] + [ChatServer.ErreurFlux] + apres;
      EcouteCoupee(c, nom, avant[1..], apres);
    }
  }

  /** `ecouter_serveur`: the listener task's loop, against `Ecoute`. */
  method EcouterServeur(c: Codec, nom: string, lectures: seq<ChatServer.LectureWs>) returns (affiches: seq<Affichage>)
    ensures affiches == Ecoute(c, nom, lectures)
  {
    affiches := [];
    var i := 0;
    while i < |lectures|
      invariant 0 <= i <= |lectures|
      invariant affiches + Ecoute(c, nom, lectures[i..]) == Ecoute(c, nom, lectures)
    {
      EcouteDe(c, nom, lectures, i);
      match lectures[i] {
        case ErreurFlux =>
          return;
        case Recue(t) =>
          affiches := affiches + Vu(c, nom, t);
      }
      i := i + 1;
    }
  }

  // ---------------------------------------------------------------------
  // Simulated files.
  // ---------------------------------------------------------------------

  /** What `split('.').last()` gives: the text after the last dot, or the whole name when it has none. */
  function Extension(nomFichier: string): (e: string)
    ensures '.' !in e && Text.EndsWith(nomFichier, e)
  {
    var parties := Text.Split(nomFichier, '.');
    Text.JoinSplit(nomFichier, '.');
    ExtensionFin(parties, '.');
    parties[|parties| - 1]
  }

  /** The last piece of a join ends the joined text. */
  lemma {:induction false} ExtensionFin(parties: seq<string>, sep: char)
    requires |parties| >= 1
    ensures Text.EndsWith(Text.Join(parties, sep), parties[|parties| - 1])
  {
    if |parties| > 1 {
      ExtensionFin(parties[1..], sep);
      var reste := Text.Join(parties[1..], sep);
      var tout := parties[0] + [sep] + reste;
      assert tout[|tout| - |parties[|parties| - 1]|..] == reste[|reste| - |parties[|parties| - 1]|..];
    }
  }

  lemma ExtensionSansPoint(nomFichier: string)
    requires '.' !in nomFichier
    ensures Extension(nomFichier) == nomFichier
  {
  }

  /** The ASCII bytes of the text file's made-up contents, `b"Ceci est le contenu d'un fichier texte simulate."`. */
  const OctetsFichierTexte: seq<uint8> :=
    [
      0x43, 0x65, 0x63, 0x69, 0x20, 0x65, 0x73, 0x74, 0x20, 0x6C, 0x65, 0x20,
      0x63, 0x6F, 0x6E, 0x74, 0x65, 0x6E, 0x75, 0x20, 0x64, 0x27, 0x75, 0x6E,
      0x20, 0x66, 0x69, 0x63, 0x68, 0x69, 0x65, 0x72, 0x20, 0x74, 0x65, 0x78,
      0x74, 0x65, 0x20, 0x73, 0x69, 0x6D, 0x75, 0x6C, 0x61, 0x74, 0x65, 0x2E]

  /** The ASCII bytes of `b"Donnees d'image simulees..."`. */
  const OctetsImage: seq<uint8> :=
    [
      0x44, 0x6F, 0x6E, 0x6E, 0x65, 0x65, 0x73, 0x20, 0x64, 0x27, 0x69, 0x6D,
      0x61, 0x67, 0x65, 0x20, 0x73, 0x69, 0x6D, 0x75, 0x6C, 0x65, 0x65, 0x73,
      0x2E, 0x2E, 0x2E]

  /** The ASCII bytes of `b"Fichier binaire simule: "`. */
  const OctetsGenerique: seq<uint8> :=
    [
      0x46, 0x69, 0x63, 0x68, 0x69, 0x65, 0x72, 0x20, 0x62, 0x69, 0x6E, 0x61,
      0x69, 0x72, 0x65, 0x20, 0x73, 0x69, 0x6D, 0x75, 0x6C, 0x65, 0x3A, 0x20]

  /** The JPEG start-of-image and APP0 markers. */
  const EnTeteJpeg: seq<uint8> := [0xFF, 0xD8, 0xFF, 0xE0]

  /** `n` copies of the byte `b` (`vec![b; n]`). */
  function Octets(b: uint8, n: nat): (r: seq<uint8>)
    ensures |r| == n && forall i | 0 <= i < n :: r[i] == b
  {
    seq(n, _ => b)
  }

  /** The data `envoyer_fichier_simule` makes up, chosen by the file's extension. */
  function DonneesSimulees(nomFichier: string): seq<uint8>
  {
    var ext := Extension(nomFichier);
    if ext == "txt" then OctetsFichierTexte
    else if ext == "jpg" || ext == "png" then EnTeteJpeg + OctetsImage + Octets(0, 100)
    else OctetsGenerique + Utf8.Encode(nomFichier) + Octets(42, 50)
  }

  /** For text and image files the data depends on the extension alone, not on the rest of the name. */
  lemma DonneesSelonExtension(a: string, b: string)
    requires Extension(a) == Extension(b) && Extension(a) in {"txt", "jpg", "png"}
    ensures DonneesSimulees(a) == DonneesSimulees(b)
  {
  }

  /**
   * The made-up data: 48 bytes for a text file; for an image 131 bytes
   * that start with the JPEG markers and end with 100 zero bytes; for any
   * other file a 24-byte prefix, the name's own UTF-8 bytes, then 50 bytes
   * of 42.
   */
  lemma DonneesSimuleesForme(nomFichier: string)
    ensures var d := DonneesSimulees(nomFichier); var ext := Extension(nomFichier);
      && (ext == "txt" ==> |d| == 48)
      && (ext in {"jpg", "png"} ==>
            |d| == 131 && d[..4] == EnTeteJpeg && forall i | 31 <= i < 131 :: d[i] == 0)
      && (ext !in {"txt", "jpg", "png"} ==>
            && |d| == 24 + Utf8.ByteLength(nomFichier) + 50
            && d[24..24 + Utf8.ByteLength(nomFichier)] == Utf8.Encode(nomFichier)
            && forall i | |d| - 50 <= i < |d| :: d[i] == 42)
  {
    var d := DonneesSimulees(nomFichier);
    var ext := Extension(nomFichier);
    Utf8.EncodeLength(nomFichier);
    if ext in {"jpg", "png"} {
      var debut := EnTeteJpeg + OctetsImage;
      assert d == debut + Octets(0, 100);
      assert d[..4] == debut[..4];
    } else if ext != "txt" {
      var n := Utf8.Encode(nomFichier);
      assert d == OctetsGenerique + n + Octets(42, 50);
      assert d[24..24 + |n|] == n;
    }
  }

  // ---------------------------------------------------------------------
  // The input loop.
  // ---------------------------------------------------------------------

  /** What a typed line leads to. */
  datatype Routage = Ignorer | Quitter | EnvoyerFichier(nomFichier: string) | EnvoyerChat(texte: string)

  /**
   * The line is trimmed; a blank line is skipped, `/quit` in any ASCII case
   * leaves, `/file ` followed by a name sends a simulated file, anything
   * else (other commands included) is sent as chat text.
   */
  function Router(ligne: string): (r: Routage)
    ensures r.Ignorer? <==> Text.Trim(ligne) == []
    ensures r.Quitter? <==> Text.EqIgnoreAsciiCase(Text.Trim(ligne), "/quit")
    ensures r.EnvoyerFichier? <==>
      !Text.EqIgnoreAsciiCase(Text.Trim(ligne), "/quit") && Text.StartsWith(Text.Trim(ligne), "/file ")
    ensures r.EnvoyerFichier? ==> Text.Trim(ligne) == "/file " + r.nomFichier
    ensures r.EnvoyerChat? ==> r.texte == Text.Trim(ligne)
  {
    var t := Text.Trim(ligne);
    if t == [] then Ignorer
    else if Text.EqIgnoreAsciiCase(t, "/quit") then Quitter
    else if Text.StartsWith(t, "/file ") then
      assert t == "/file " + t[6..];
      EnvoyerFichier(t[6..])
    else EnvoyerChat(t)
  }

  /** Chat text that leaves the client is never empty and has no white space at either end. */
  lemma ChatSansBlancs(ligne: string)
    requires Router(ligne).EnvoyerChat?
    ensures var t := Router(ligne).texte; t != [] && Text.Trim(t) == t
  {
    var s := Text.TrimStart(ligne);
    var t := Text.TrimEnd(s);
    assert t[0] == s[0];
    Text.TrimNoop(t);
  }

  /** A line read from standard input, with the id and clock reading for the message it may cause. */
  datatype Saisie = Ligne(texte: string, id: Uuid, now: Timestamp) | ErreurSaisie

  /** The frame a routed line is sent as, when it is sent. */
  function TrameDe(c: Codec, nom: string, r: Routage, id: Uuid, now: Timestamp): Option<Trame>
  {
    match r
    case Ignorer => None
    case Quitter => Some(VersMessageWebSocket(c, NouvelleDeconnexion(id, now, nom)))
    case EnvoyerFichier(f) => Some(VersMessageWebSocket(c, NouveauBinaire(id, now, nom, DonneesSimulees(f), Some(f))))
    case EnvoyerChat(t) => Some(VersMessageWebSocket(c, NouveauChat(id, now, nom, t)))
  }

  /** The frames the input loop sends for the lines typed, up to the departure or a read error. */
  function Envois(c: Codec, nom: string, saisies: seq<Saisie>): seq<Trame>
  {
    if saisies == [] then []
    else EnvoiSaisie(c, nom, saisies[0]) + (if Arrete(saisies[0]) then [] else Envois(c, nom, saisies[1..]))
  }

  /** A line that ends the input loop: a read error, or `/quit`. */
  predicate Arrete(s: Saisie)
  {
    s.ErreurSaisie? || Router(s.texte).Quitter?
  }

  /** The frames one line sends: none for a read error or a blank line, one otherwise. */
  function EnvoiSaisie(c: Codec, nom: string, s: Saisie): (e: seq<Trame>)
    ensures |e| == if s.ErreurSaisie? || Router(s.texte).Ignorer? then 0 else 1
  {
    match s
    case ErreurSaisie => []
    case Ligne(l, id, now) => match TrameDe(c, nom, Router(l), id, now) case Some(t) => [t] case None => []
  }

  lemma EnvoisDe(c: Codec, nom: string, saisies: seq<Saisie>, i: nat)
    requires i < |saisies|
    ensures Envois(c, nom, saisies[i..]) ==
      EnvoiSaisie(c, nom, saisies[i]) + (if Arrete(saisies[i]) then [] else Envois(c, nom, saisies[i + 1..]))
  {
    assert saisies[i..][1..] == saisies[i + 1..];
  }

  /** The departure the client sends makes the server's read loop stop and drop the user. */
  lemma QuitterArreteServeur(c: Codec, nom: string, ligne: string, id: Uuid, now: Timestamp, a: ChatServer.Arrivee)
    requires RoundTrips(c) && Router(ligne).Quitter?
    requires a.lecture == ChatServer.Recue(TrameDe(c, nom, Router(ligne), id, now).value)
    ensures ChatServer.Stoppe(c, a)
  {
    DepuisVersMessageWebSocket(c, NouvelleDeconnexion(id, now, nom));
  }

  /** Nothing typed after `/quit` is sent. */
  lemma EnvoisApresQuitter(c: Codec, nom: string, saisies: seq<Saisie>)
    requires saisies != [] && saisies[0].Ligne? && Router(saisies[0].texte).Quitter?
    ensures Envois(c, nom, saisies) == [TrameDe(c, nom, Quitter, saisies[0].id, saisies[0].now).value]
  {
  }

  /** Whether the server confirmed the connection, as `connecter` reads its first reply. */
  datatype ReponseConnexion = Delai | Fermee | Recu(lecture: ChatServer.LectureWs)

  /**
   * Any notification counts as the confirmation, and its text is shown;
   * every other outcome is an error.
   */
  function ConfirmationWs(c: Codec, reponse: ReponseConnexion): (r: Result<string, string>)
    ensures r.Success? <==>
      && reponse.Recu? && reponse.lecture.Recue?
      && DepuisMessageWebSocket(c, reponse.lecture.trame).Success?
      && DepuisMessageWebSocket(c, reponse.lecture.trame).value.typeMessage == Notification
    ensures reponse.Delai? ==> r == Failure("Timeout lors de la connexion")
    ensures reponse.Fermee? ==> r == Failure("Connexion fermée par le serveur")
    ensures reponse.Recu? && reponse.lecture.ErreurFlux? ==> r.Failure? && Text.StartsWith(r.error, "Erreur WebSocket")
  {
    match reponse
    case Delai => Failure("Timeout lors de la connexion")
    case Fermee => Failure("Connexion fermée par le serveur")
    case Recu(ErreurFlux) => Failure("Erreur WebSocket")
    case Recu(Recue(t)) =>
      match DepuisMessageWebSocket(c, t)
      case Failure(_) => Failure("Impossible de parser la réponse du serveur")
      case Success(m) =>
        if m.typeMessage != Notification then Failure("Réponse inattendue du serveur")
        else Success(if m.contenu.Some? then m.contenu.value else "Connexion réussie")
  }

  /** The server's welcome confirms the connection and is shown as sent. */
  lemma BienvenueConfirme(c: Codec, id: Uuid, now: Timestamp, nom: string)
    requires RoundTrips(c)
    ensures var t := VersMessageWebSocket(c, NouvelleNotification(id, now, ChatServer.TexteBienvenue(nom)));
      ConfirmationWs(c, Recu(ChatServer.Recue(t))) == Success(ChatServer.TexteBienvenue(nom))
  {
    DepuisVersMessageWebSocket(c, NouvelleNotification(id, now, ChatServer.TexteBienvenue(nom)));
  }

  /**
   * The server's refusals are notifications too, so the client takes a
   * refusal (a name already taken, say) for a confirmation and shows it.
   */
  lemma RefusConfirme(c: Codec, id: Uuid, now: Timestamp, texte: string)
    requires RoundTrips(c)
    ensures var t := VersMessageWebSocket(c, NouvelleNotification(id, now, "Erreur de connexion: " + texte));
      ConfirmationWs(c, Recu(ChatServer.Recue(t))).Success?
  {
    DepuisVersMessageWebSocket(c, NouvelleNotification(id, now, "Erreur de connexion: " + texte));
  }

  class ClientWebSocket {
    const nomUtilisateur: string
    const urlServeur: string
    var connecte: bool
    /** The frames written to the WebSocket, in order. */
    var envoyes: seq<Trame>

    constructor(nomUtilisateur: string, urlServeur: string)
      ensures this.nomUtilisateur == nomUtilisateur && this.urlServeur == urlServeur
      ensures !connecte && envoyes == []
    {
      this.nomUtilisateur := nomUtilisateur;
      this.urlServeur := urlServeur;
      connecte := false;
      envoyes := [];
    }

    /** `connecter`, from the connection on: announce the user, then wait for the confirmation. */
    method Connecter(c: Codec, id: Uuid, now: Timestamp, reponse: ReponseConnexion) returns (r: Result<string, string>)
      modifies this
      ensures envoyes == old(envoyes) + [VersMessageWebSocket(c, NouvelleConnexion(id, now, nomUtilisateur))]
      ensures r == ConfirmationWs(c, reponse)
      ensures connecte == (old(connecte) || r.Success?)
    {
      envoyes := envoyes + [VersMessageWebSocket(c, NouvelleConnexion(id, now, nomUtilisateur))];
      r := ConfirmationWs(c, reponse);
      if r.Success? {
        connecte := true;
      }
    }

    /** One line of the input loop: route it and send what it calls for; `arret` when the loop ends there. */
    method TraiterSaisie(c: Codec, s: Saisie) returns (arret: bool)
      modifies this
      ensures envoyes == old(envoyes) + EnvoiSaisie(c, nomUtilisateur, s)
      ensures arret == Arrete(s)
      ensures connecte == old(connecte)
    {
      match s {
        case ErreurSaisie =>
          return true;
        case Ligne(l, id, now) =>
          var r := Router(l);
          var t := TrameDe(c, nomUtilisateur, r, id, now);
          if t.Some? {
            envoyes := envoyes + [t.value];
          }
          arret := r.Quitter?;
      }
    }

    /**
     * `boucle_envoi_messages`, against `Envois`. The lines read are `saisies`;
     * `arret` tells whether the loop broke (a read error or `/quit`), and only
     * then is the client marked disconnected. Without a break the loop is
     * still waiting for input once `saisies` is used up.
     */
    method BoucleEnvoiMessages(c: Codec, saisies: seq<Saisie>) returns (arret: bool)
      modifies this
      ensures envoyes == old(envoyes) + Envois(c, nomUtilisateur, saisies)
      ensures arret <==> exists k | 0 <= k < |saisies| :: Arrete(saisies[k])
      ensures connecte == (old(connecte) && !arret)
    {
      var i := 0;
      arret := false;
      while i < |saisies|
        invariant 0 <= i <= |saisies|
        invariant connecte == old(connecte)
        invariant forall k | 0 <= k < i :: !Arrete(saisies[k])
        invariant old(envoyes) + Envois(c, nomUtilisateur, saisies) == envoyes + Envois(c, nomUtilisateur, saisies[i..])
      {
        EnvoisDe(c, nomUtilisateur, saisies, i);
        ghost var avant := envoyes;
        arret := TraiterSaisie(c, saisies[i]);
        if arret {
          assert Envois(c, nomUtilisateur, saisies[i..]) == EnvoiSaisie(c, nomUtilisateur, saisies[i]);
          assert Arrete(saisies[i]);
          break;
        }
        ghost var suite := Envois(c, nomUtilisateur, saisies[i + 1..]);
        assert Envois(c, nomUtilisateur, saisies[i..]) == EnvoiSaisie(c, nomUtilisateur, saisies[i]) + suite;
        Text.Concat3(avant, EnvoiSaisie(c, nomUtilisateur, saisies[i]), suite);
        i := i + 1;
      }
      if arret {
        connecte := false;
      }
    }
  }

  /** `ClientWebSocket::new`: refuses a name the name rule refuses. */
  method Nouveau(nomUtilisateur: string, urlServeur: string) returns (r: Result<ClientWebSocket, ErreurNom>)
    ensures r.Success? <==> ValiderNomUtilisateur(nomUtilisateur).Success?
    ensures r.Failure? ==> r.error == ValiderNomUtilisateur(nomUtilisateur).error
    ensures r.Success? ==>
      fresh(r.value) && r.value.nomUtilisateur == nomUtilisateur && r.value.urlServeur == urlServeur
      && !r.value.connecte && r.value.envoyes == []
  {
    match ValiderNomUtilisateur(nomUtilisateur) {
      case Failure(e) =>
        r := Failure(e);
      case Success(_) =>
        var client := new ClientWebSocket(nomUtilisateur, urlServeur);
        r := Success(client);
    }
  }

  // ---------------------------------------------------------------------
  // The server URL.
  // ---------------------------------------------------------------------

  const UrlParDefaut: string := "ws://127.0.0.1:9001"

  /** `demander_url_serveur` after the read: the default for a blank answer, `ws://` added when no scheme is given. */
  function NormaliserUrl(saisie: string): (url: string)
    ensures Text.StartsWith(url, "ws://") || Text.StartsWith(url, "wss://")
    ensures Text.Trim(saisie) == [] ==> url == UrlParDefaut
    ensures Text.Trim(saisie) != [] ==>
      url == if Text.StartsWith(Text.Trim(saisie), "ws://") || Text.StartsWith(Text.Trim(saisie), "wss://")
             then Text.Trim(saisie) else "ws://" + Text.Trim(saisie)
  {
    var u := Text.Trim(saisie);
    if u == [] then UrlParDefaut
    else if Text.StartsWith(u, "ws://") || Text.StartsWith(u, "wss://") then u
    else "ws://" + u
  }

  /** Normalising twice changes nothing: a normalised URL is kept as it is. */
  lemma NormaliserIdempotent(saisie: string)
    ensures NormaliserUrl(NormaliserUrl(saisie)) == NormaliserUrl(saisie)
  {
    var u := Text.Trim(saisie);
    var url := NormaliserUrl(saisie);
    if u != [] {
      var s := Text.TrimStart(saisie);
      assert u[0] == s[0];
      assert !Text.IsWhitespace(u[|u| - 1]);
      assert url[|url| - 1] == u[|u| - 1];
    }
    Text.TrimNoop(url);
  }
}
