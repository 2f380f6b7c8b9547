/**
 * The chat server: the shared state (connected users, a connection
 * counter, the broadcast channel), a connection's handshake, its read loop
 * and the handling of each message and chat command, and the writer task
 * that forwards broadcasts to one client without echoing its own messages.
 *
 * The broadcast channel is modelled by the log `diffuses` of everything
 * sent on it; a subscriber receives the part of the log after the moment
 * it subscribed.
 */
module ChatServer {
  import opened Wrappers
  import opened Externals
  import opened Bytes
  import opened ChatMessage
  import Text

  datatype UtilisateurWebSocket = UtilisateurWebSocket(nom: string, adresse: SocketAddr, idSession: string)

  /** `l` lists the names of `s`, each once, in some order (the order `HashMap::keys` gives is unspecified). */
  predicate ListeDe(l: seq<string>, s: set<string>)
  {
    && (forall i | 0 <= i < |l| :: l[i] in s)
    && (forall x | x in s :: x in l)
    && (forall i, j | 0 <= i < j < |l| :: l[i] != l[j])
  }

  /** Some listing of `s`: the order a branch that does not look at the list would have seen. */
  ghost function UneListe(s: set<string>): (l: seq<string>)
    ensures ListeDe(l, s)
    decreases |s|
  {
    if s == {} then []
    else
      var x :| x in s;
      var reste := UneListe(s - {x});
      assert forall i | 0 <= i < |[x] + reste| :: ([x] + reste)[i] == if i == 0 then x else reste[i - 1];
      [x] + reste
  }

  /** The notification announcing an arrival, with the number of users once it is added. */
  function TexteArrivee(nom: string, connectes: nat): string
  {
    nom + " a rejoint le chat (" + Text.NatToString(connectes) + " utilisateurs connectés)"
  }

  /** The checks `ajouter_utilisateur` makes before adding a user: the name rule first, then uniqueness. */
  function Admission(utilisateurs: map<string, UtilisateurWebSocket>, nom: string): (r: Result<(), string>)
    ensures r.Success? <==> ValiderNomUtilisateur(nom).Success? && nom !in utilisateurs
    ensures ValiderNomUtilisateur(nom).Failure? ==> r == Failure(TexteErreurNom(ValiderNomUtilisateur(nom).error))
  {
    match ValiderNomUtilisateur(nom)
    case Failure(e) => Failure(TexteErreurNom(e))
    case Success(_) =>
      if nom in utilisateurs then Failure("L'utilisateur '" + nom + "' est déjà connecté") else Success(())
  }

  /** The JSON `obtenir_statistiques` builds. */
  function Statistiques(connectes: nat, total: nat, liste: seq<string>): JsonValue
  {
    JObject(map[
      "utilisateurs_connectes" := JNumber(connectes as real),
      "total_connexions" := JNumber(total as real),
      "utilisateurs" := JsonNoms(liste)])
  }

  class EtatServeurWs {
    var utilisateurs: map<string, UtilisateurWebSocket>
    var compteurConnexions: nat
    /** Every message sent on the broadcast channel, oldest first. */
    var diffuses: seq<MessageWebSocket>

    /** Each user is filed under its own name, and the counter counts at least everyone connected now. */
    ghost predicate Valid()
      reads this
    {
      && |utilisateurs| <= compteurConnexions
      && forall n | n in utilisateurs :: utilisateurs[n].nom == n
    }

    constructor()
      ensures Valid() && utilisateurs == map[] && compteurConnexions == 0 && diffuses == []
    {
      utilisateurs := map[];
      compteurConnexions := 0;
      diffuses := [];
    }

    /**
     * Adds a user when the name is valid and free, counts the connection
     * and announces it; on refusal nothing changes.
     */
    method AjouterUtilisateur(nom: string, adresse: SocketAddr, idSession: string, id: Uuid, now: Timestamp)
      returns (r: Result<string, string>)
      requires Valid()
      modifies this
      ensures Valid()
      ensures r.Success? <==> Admission(old(utilisateurs), nom).Success?
      ensures r.Failure? ==> r.error == Admission(old(utilisateurs), nom).error && unchanged(this)
      ensures r.Success? ==>
        && r.value == idSession
        && utilisateurs == old(utilisateurs)[nom := UtilisateurWebSocket(nom, adresse, idSession)]
        && |utilisateurs| == |old(utilisateurs)| + 1
        && compteurConnexions == old(compteurConnexions) + 1
        && diffuses == old(diffuses) + [NouvelleNotification(id, now, TexteArrivee(nom, |utilisateurs|))]
    {
      var admission := Admission(utilisateurs, nom);
      if admission.Failure? {
        return Failure(admission.error);
      }
      utilisateurs := utilisateurs[nom := UtilisateurWebSocket(nom, adresse, idSession)];
      compteurConnexions := compteurConnexions + 1;
      diffuses := diffuses + [NouvelleNotification(id, now, TexteArrivee(nom, |utilisateurs|))];
      r := Success(idSession);
    }

    /** Removes a user; only a user who was there is announced as leaving. */
    method SupprimerUtilisateur(nom: string, id: Uuid, now: Timestamp)
      requires Valid()
      modifies this
      ensures Valid()
      ensures utilisateurs == old(utilisateurs) - {nom}
      ensures compteurConnexions == old(compteurConnexions)
      ensures diffuses == old(diffuses) + (if nom in old(utilisateurs) then [NouvelleDeconnexion(id, now, nom)] else [])
    {
      if nom in utilisateurs {
        RetraitTaille(utilisateurs, nom);
        utilisateurs := utilisateurs - {nom};
        diffuses := diffuses + [NouvelleDeconnexion(id, now, nom)];
      } else {
        assert utilisateurs - {nom} == utilisateurs;
      }
    }

    /** The names of the connected users, each once, in an unspecified order. */
    method ObtenirListeUtilisateurs() returns (liste: seq<string>)
      ensures ListeDe(liste, utilisateurs.Keys) && |liste| == |utilisateurs|
    {
      liste := [];
      var restant := utilisateurs.Keys;
      while restant != {}
        invariant restant <= utilisateurs.Keys
        invariant forall i | 0 <= i < |liste| :: liste[i] in utilisateurs.Keys && liste[i] !in restant
        invariant forall x | x in utilisateurs.Keys && x !in restant :: x in liste
        invariant forall i, j | 0 <= i < j < |liste| :: liste[i] != liste[j]
        invariant |liste| + |restant| == |utilisateurs|
        decreases |restant|
      {
        var n :| n in restant;
        liste := liste + [n];
        restant := restant - {n};
      }
    }

    /** The statistics, over the listing of the users that `liste` names. */
    method ObtenirStatistiques() returns (stats: JsonValue, ghost liste: seq<string>)
      ensures ListeDe(liste, utilisateurs.Keys)
      ensures stats == Statistiques(|utilisateurs|, compteurConnexions, liste)
    {
      var noms := ObtenirListeUtilisateurs();
      liste := noms;
      stats := Statistiques(|utilisateurs|, compteurConnexions, noms);
    }

    method DiffuserMessage(m: MessageWebSocket)
      modifies this
      ensures diffuses == old(diffuses) + [m]
      ensures utilisateurs == old(utilisateurs) && compteurConnexions == old(compteurConnexions)
    {
      diffuses := diffuses + [m];
    }
  }

  lemma RetraitTaille(m: map<string, UtilisateurWebSocket>, k: string)
    requires k in m
    ensures |m - {k}| == |m| - 1
  {
    assert (m - {k}).Keys == m.Keys - {k};
  }

  // ---------------------------------------------------------------------
  // Handling one message from an authenticated client.
  // ---------------------------------------------------------------------

  /** What handling a message does: the messages it broadcasts, and whether the read loop goes on. */
  datatype Effet = Effet(diffusion: seq<MessageWebSocket>, issue: Result<(), string>)

  /** What a command or a list request sees of the server: the listing of the users and the counter. */
  datatype Vue = Vue(liste: seq<string>, total: nat)

  const TexteAide: string :=
    "Commandes WebSocket disponibles:\n/help - Affiche cette aide\n/users - Liste des utilisateurs connectés\n"
    + "/stats - Statistiques du serveur\n/ping - Teste la connexion\n/quit - Se déconnecter"

  /** The answer to `/users`: the count, then the names separated by a new line and a bullet. */
  function TexteUtilisateurs(liste: seq<string>): string
  {
    "Utilisateurs connectés (" + Text.NatToString(|liste|) + "):\n" + Text.JoinWith(liste, "\n• ")
  }

  /** The first word of a text that starts with a slash; such a text always has one. */
  function PremierMot(commande: string): (w: string)
    requires Text.StartsWith(commande, "/")
    ensures Text.SplitWhitespace(commande) != [] && w == Text.SplitWhitespace(commande)[0]
    ensures Text.StartsWith(w, "/")
  {
    Text.SplitWhitespaceFirst(commande);
    Text.SplitWhitespace(commande)[0]
  }

  /** A chat text that ends the connection: a command whose first word is `/quit`. */
  predicate EstQuit(contenu: string)
  {
    Text.StartsWith(contenu, "/") && PremierMot(contenu) == "/quit"
  }

  /**
   * `traiter_commande`: every answer is a server message broadcast to all;
   * `/quit` broadcasts nothing and ends the connection.
   */
  function ReponseCommande(pretty: JsonValue -> string, commande: string, vue: Vue, id: Uuid, now: Timestamp): (e: Effet)
    requires Text.StartsWith(commande, "/")
    ensures e.issue.Failure? <==> EstQuit(commande)
    ensures e.issue.Failure? ==> e.diffusion == []
    ensures e.issue.Success? ==>
      && |e.diffusion| == 1 && e.diffusion[0].utilisateur.None?
      && e.diffusion[0].id == id && e.diffusion[0].timestamp == now
    ensures PremierMot(commande) == "/ping" ==> e.diffusion == [NouveauPing(id, now)]
    ensures e.issue.Success? && PremierMot(commande) != "/ping" ==> e.diffusion[0].typeMessage == Notification
    ensures PremierMot(commande) == "/help" ==> e.diffusion[0].contenu == Some(TexteAide)
    ensures PremierMot(commande) == "/users" ==> e.diffusion[0].contenu == Some(TexteUtilisateurs(vue.liste))
    ensures PremierMot(commande) == "/stats" ==>
      e.diffusion[0].contenu == Some("Statistiques du serveur:\n" + pretty(Statistiques(|vue.liste|, vue.total, vue.liste)))
    ensures PremierMot(commande) !in {"/help", "/users", "/stats", "/ping", "/quit"} ==>
      e.diffusion[0].contenu == Some("Commande inconnue: " + PremierMot(commande) + ". Tapez /help pour l'aide.")
  {
    var mot := PremierMot(commande);
    if mot == "/help" then Effet([NouvelleNotification(id, now, TexteAide)], Success(()))
    else if mot == "/users" then Effet([NouvelleNotification(id, now, TexteUtilisateurs(vue.liste))], Success(()))
    else if mot == "/stats" then
      var stats := Statistiques(|vue.liste|, vue.total, vue.liste);
      Effet([NouvelleNotification(id, now, "Statistiques du serveur:\n" + pretty(stats))], Success(()))
    else if mot == "/ping" then Effet([NouveauPing(id, now)], Success(()))
    else if mot == "/quit" then Effet([], Failure("Déconnexion demandée"))
    else Effet([NouvelleNotification(id, now, "Commande inconnue: " + mot + ". Tapez /help pour l'aide.")], Success(()))
  }

  /** The file name a binary message's metadata carries, when it is an object with a textual `nom_fichier`. */
  function NomFichier(meta: Option<JsonValue>): Option<string>
  {
    if meta.Some? && meta.value.JObject? && "nom_fichier" in meta.value.fields && meta.value.fields["nom_fichier"].JString?
    then Some(meta.value.fields["nom_fichier"].s)
    else None
  }

  /** A message the read loop stops at: a departure, or the `/quit` command. */
  predicate Arret(m: MessageWebSocket)
  {
    m.typeMessage == Deconnexion || (m.typeMessage == Chat && m.contenu.Some? && EstQuit(m.contenu.value))
  }

  /**
   * `traiter_message_client` for the user `nom`. Whatever sender the
   * incoming message names, what is broadcast in reply is sent as `nom`
   * or as the server: a client cannot speak for someone else.
   */
  function Reaction(pretty: JsonValue -> string, nom: string, m: MessageWebSocket, vue: Vue, id: Uuid, now: Timestamp): (e: Effet)
    ensures |e.diffusion| <= 1
    ensures e.issue.Failure? <==> Arret(m)
    ensures e.issue.Failure? ==> e.diffusion == []
    ensures forall k | 0 <= k < |e.diffusion| :: e.diffusion[k].utilisateur in {None, Some(nom)}
  {
    match m.typeMessage
    case Chat =>
      if m.contenu.None? then Effet([], Success(()))
      else if Text.StartsWith(m.contenu.value, "/") then ReponseCommande(pretty, m.contenu.value, vue, id, now)
      else Effet([NouveauChat(id, now, nom, m.contenu.value)], Success(()))
    case Binaire =>
      if m.donneesBinaires.None? then Effet([], Success(()))
      else Effet([NouveauBinaire(id, now, nom, m.donneesBinaires.value, NomFichier(m.metadonnees))], Success(()))
    case DemandeUtilisateurs => Effet([NouvelleListeUtilisateurs(id, now, vue.liste)], Success(()))
    case Ping => Effet([NouveauPong(id, now, m.id)], Success(()))
    case Deconnexion => Effet([], Failure("Déconnexion volontaire"))
    case _ => Effet([], Success(()))
  }

  /** A ping is answered by a pong, broadcast to all, that carries the ping's id. */
  lemma PingPong(pretty: JsonValue -> string, nom: string, m: MessageWebSocket, vue: Vue, id: Uuid, now: Timestamp)
    requires m.typeMessage == Ping
    ensures var e := Reaction(pretty, nom, m, vue, id, now);
      && e.issue.Success? && |e.diffusion| == 1
      && e.diffusion[0].typeMessage == Pong && e.diffusion[0].metadonnees == Some(JString(m.id.text))
  {
  }

  /** A binary message a client built is rebroadcast with the same data and file name, under the connection's name. */
  lemma BinaireRediffuse(pretty: JsonValue -> string, nom: string, vue: Vue, id: Uuid, now: Timestamp,
                         m: MessageWebSocket, donnees: seq<uint8>, nomFichier: Option<string>)
    requires m.utilisateur.Some? && m == NouveauBinaire(m.id, m.timestamp, m.utilisateur.value, donnees, nomFichier)
    ensures Reaction(pretty, nom, m, vue, id, now).diffusion == [NouveauBinaire(id, now, nom, donnees, nomFichier)]
  {
    assert NomFichier(m.metadonnees) == nomFichier;
  }

  /** A chat text that is not a command is broadcast as is, under the connection's name. */
  lemma ChatRediffuse(pretty: JsonValue -> string, nom: string, m: MessageWebSocket, vue: Vue, id: Uuid, now: Timestamp)
    requires m.typeMessage == Chat && m.contenu.Some? && !Text.StartsWith(m.contenu.value, "/")
    ensures Reaction(pretty, nom, m, vue, id, now) == Effet([NouveauChat(id, now, nom, m.contenu.value)], Success(()))
  {
  }

  /** The command side of `traiter_message_client`, with the state it reads. */
  method TraiterCommande(etat: EtatServeurWs, pretty: JsonValue -> string, commande: string, id: Uuid, now: Timestamp)
    returns (issue: Result<(), string>, ghost vue: Vue)
    requires etat.Valid() && Text.StartsWith(commande, "/")
    modifies etat
    ensures etat.Valid()
    ensures etat.utilisateurs == old(etat.utilisateurs) && etat.compteurConnexions == old(etat.compteurConnexions)
    ensures ListeDe(vue.liste, old(etat.utilisateurs).Keys) && vue.total == old(etat.compteurConnexions)
    ensures var e := ReponseCommande(pretty, commande, vue, id, now);
      etat.diffuses == old(etat.diffuses) + e.diffusion && issue == e.issue
  {
    var mot := PremierMot(commande);
    vue := Vue(UneListe(etat.utilisateurs.Keys), etat.compteurConnexions);
    if mot == "/help" {
      etat.DiffuserMessage(NouvelleNotification(id, now, TexteAide));
    } else if mot == "/users" {
      var liste := etat.ObtenirListeUtilisateurs();
      vue := Vue(liste, etat.compteurConnexions);
      etat.DiffuserMessage(NouvelleNotification(id, now, TexteUtilisateurs(liste)));
    } else if mot == "/stats" {
      var stats;
      ghost var liste;
      stats, liste := etat.ObtenirStatistiques();
      vue := Vue(liste, etat.compteurConnexions);
      ListeTaille(liste, etat.utilisateurs.Keys);
      etat.DiffuserMessage(NouvelleNotification(id, now, "Statistiques du serveur:\n" + pretty(stats)));
    } else if mot == "/ping" {
      etat.DiffuserMessage(NouveauPing(id, now));
    } else if mot == "/quit" {
      return Failure("Déconnexion demandée"), vue;
    } else {
      etat.DiffuserMessage(NouvelleNotification(id, now, "Commande inconnue: " + mot + ". Tapez /help pour l'aide."));
    }
    issue := Success(());
  }

  /** A listing of a set has as many entries as the set has elements. */
  lemma {:induction false} ListeTaille(l: seq<string>, s: set<string>)
    requires ListeDe(l, s)
    ensures |l| == |s|
    decreases |l|
  {
    if l != [] {
      var x := l[|l| - 1];
      var debut := l[..|l| - 1];
      assert forall i | 0 <= i < |debut| :: debut[i] == l[i];
      assert x !in debut;
      forall y | y in s - {x}
        ensures y in debut
      {
        var i :| 0 <= i < |l| && l[i] == y;
        assert i < |l| - 1;
      }
      ListeTaille(debut, s - {x});
    } else {
      assert forall x | x in s :: x in l;
      assert s == {};
    }
  }

  /** `traiter_message_client`: one message from the user `nom`, against the spec function `Reaction`. */
  method TraiterMessageClient(etat: EtatServeurWs, pretty: JsonValue -> string, nom: string, m: MessageWebSocket, id: Uuid, now: Timestamp)
    returns (issue: Result<(), string>, ghost vue: Vue)
    requires etat.Valid()
    modifies etat
    ensures etat.Valid()
    ensures etat.utilisateurs == old(etat.utilisateurs) && etat.compteurConnexions == old(etat.compteurConnexions)
    ensures ListeDe(vue.liste, old(etat.utilisateurs).Keys) && vue.total == old(etat.compteurConnexions)
    ensures var e := Reaction(pretty, nom, m, vue, id, now);
      etat.diffuses == old(etat.diffuses) + e.diffusion && issue == e.issue
  {
    vue := Vue(UneListe(etat.utilisateurs.Keys), etat.compteurConnexions);
    issue := Success(());
    match m.typeMessage {
      case Chat =>
        if m.contenu.Some? {
          if Text.StartsWith(m.contenu.value, "/") {
            issue, vue := TraiterCommande(etat, pretty, m.contenu.value, id, now);
          } else {
            etat.DiffuserMessage(NouveauChat(id, now, nom, m.contenu.value));
          }
        }
      case Binaire =>
        if m.donneesBinaires.Some? {
          etat.DiffuserMessage(NouveauBinaire(id, now, nom, m.donneesBinaires.value, NomFichier(m.metadonnees)));
        }
      case DemandeUtilisateurs =>
        var liste := etat.ObtenirListeUtilisateurs();
        vue := Vue(liste, etat.compteurConnexions);
        etat.DiffuserMessage(NouvelleListeUtilisateurs(id, now, liste));
      case Ping =>
        etat.DiffuserMessage(NouveauPong(id, now, m.id));
      case Deconnexion =>
        issue := Failure("Déconnexion volontaire");
      case _ =>
    }
  }

  // ---------------------------------------------------------------------
  // A connection: handshake, read loop, clean-up.
  // ---------------------------------------------------------------------

  /** One item of the client's stream: a frame, or a WebSocket error. */
  datatype LectureWs = Recue(trame: Trame) | ErreurFlux

  /** An item of the stream, with the fresh id and clock reading the message it causes would use. */
  datatype Arrivee = Arrivee(lecture: LectureWs, id: Uuid, now: Timestamp)

  /** An item the read loop stops after: a stream error, or a readable message that ends the connection. */
  predicate Stoppe(c: Codec, a: Arrivee)
  {
    a.lecture.ErreurFlux?
    || (var r := DepuisMessageWebSocket(c, a.lecture.trame); r.Success? && Arret(r.value))
  }

  /** How many items the read loop takes from position `i` on: up to and including the first that stops it. */
  function ConsommeesDepuis(c: Codec, arrivees: seq<Arrivee>, i: nat): (r: nat)
    requires i <= |arrivees|
    ensures i <= r <= |arrivees|
    ensures forall k | i <= k < r - 1 :: !Stoppe(c, arrivees[k])
    ensures r < |arrivees| ==> i < r && Stoppe(c, arrivees[r - 1])
    decreases |arrivees| - i
  {
    if i == |arrivees| then i
    else if Stoppe(c, arrivees[i]) then i + 1
    else ConsommeesDepuis(c, arrivees, i + 1)
  }

  lemma ConsommeesPas(c: Codec, arrivees: seq<Arrivee>, i: nat)
    requires i < |arrivees|
    ensures ConsommeesDepuis(c, arrivees, i) == if Stoppe(c, arrivees[i]) then i + 1 else ConsommeesDepuis(c, arrivees, i + 1)
  {
  }

  /** Messages sent as `nom` or as the server, from two runs. */
  lemma AuNomDe(a: seq<MessageWebSocket>, b: seq<MessageWebSocket>, nom: string)
    requires forall k | 0 <= k < |a| :: a[k].utilisateur in {None, Some(nom)}
    requires forall k | 0 <= k < |b| :: b[k].utilisateur in {None, Some(nom)}
    ensures forall k | 0 <= k < |a + b| :: (a + b)[k].utilisateur in {None, Some(nom)}
  {
  }

  /**
   * What one item of the stream makes the read loop broadcast, `v` being
   * what the handler sees of the server: nothing for a stream error or a
   * frame that does not read as a message, else the reaction to it.
   */
  function DiffusionDe(c: Codec, pretty: JsonValue -> string, nom: string, a: Arrivee, v: Vue): seq<MessageWebSocket>
  {
    if a.lecture.ErreurFlux? then []
    else
      match DepuisMessageWebSocket(c, a.lecture.trame)
      case Success(m) => Reaction(pretty, nom, m, v, a.id, a.now).diffusion
      case Failure(_) => []
  }

  /** What the read loop broadcasts over the items it handles, the k-th seeing the server as `vues[k]`. */
  function Diffusions(c: Codec, pretty: JsonValue -> string, nom: string, arrivees: seq<Arrivee>, vues: seq<Vue>): seq<MessageWebSocket>
    requires |vues| == |arrivees|
    decreases |arrivees|
  {
    if arrivees == [] then []
    else
      Diffusions(c, pretty, nom, arrivees[..|arrivees| - 1], vues[..|vues| - 1])
      + DiffusionDe(c, pretty, nom, arrivees[|arrivees| - 1], vues[|vues| - 1])
  }

  /** Over any items, the loop broadcasts at most one message per item, each sent as `nom` or as the server. */
  lemma {:induction false} DiffusionsBornes(c: Codec, pretty: JsonValue -> string, nom: string, arrivees: seq<Arrivee>, vues: seq<Vue>)
    requires |vues| == |arrivees|
    ensures var p := Diffusions(c, pretty, nom, arrivees, vues);
      |p| <= |arrivees| && forall k | 0 <= k < |p| :: p[k].utilisateur in {None, Some(nom)}
    decreases |arrivees|
  {
    if arrivees != [] {
      var n := |arrivees| - 1;
      DiffusionsBornes(c, pretty, nom, arrivees[..n], vues[..n]);
      AuNomDe(Diffusions(c, pretty, nom, arrivees[..n], vues[..n]), DiffusionDe(c, pretty, nom, arrivees[n], vues[n]), nom);
    }
  }

  /** The k-th step of the fold is the k-th item seen as `v`. */
  lemma DiffusionsPas(c: Codec, pretty: JsonValue -> string, nom: string, arrivees: seq<Arrivee>, vues: seq<Vue>, i: nat, v: Vue)
    requires i < |arrivees| && |vues| == i
    ensures Diffusions(c, pretty, nom, arrivees[..i + 1], vues + [v])
      == Diffusions(c, pretty, nom, arrivees[..i], vues) + DiffusionDe(c, pretty, nom, arrivees[i], v)
  {
    assert arrivees[..i + 1][..i] == arrivees[..i] && (vues + [v])[..i] == vues;
  }

  /** Every view in `vues` lists the users `cles` and shows the counter `total`. */
  predicate VuesDe(vues: seq<Vue>, cles: set<string>, total: nat)
  {
    forall k | 0 <= k < |vues| :: ListeDe(vues[k].liste, cles) && vues[k].total == total
  }

  lemma VuesAjout(vues: seq<Vue>, v: Vue, cles: set<string>, total: nat)
    requires VuesDe(vues, cles, total) && ListeDe(v.liste, cles) && v.total == total
    ensures VuesDe(vues + [v], cles, total)
  {
    assert forall k | 0 <= k < |vues| :: (vues + [v])[k] == vues[k];
  }

  /**
   * One item of the read loop: a stream error stops it, a frame that does
   * not read as a message is skipped, a message is handled and stops the
   * loop when the handler fails.
   */
  method LireArrivee(etat: EtatServeurWs, c: Codec, pretty: JsonValue -> string, nom: string, a: Arrivee)
    returns (arret: bool, ghost vue: Vue)
    requires etat.Valid()
    modifies etat
    ensures etat.Valid()
    ensures etat.utilisateurs == old(etat.utilisateurs) && etat.compteurConnexions == old(etat.compteurConnexions)
    ensures ListeDe(vue.liste, old(etat.utilisateurs).Keys) && vue.total == old(etat.compteurConnexions)
    ensures arret == Stoppe(c, a)
    ensures etat.diffuses == old(etat.diffuses) + DiffusionDe(c, pretty, nom, a, vue)
  {
    vue := Vue(UneListe(etat.utilisateurs.Keys), etat.compteurConnexions);
    arret := a.lecture.ErreurFlux?;
    if !arret {
      var lu := DepuisMessageWebSocket(c, a.lecture.trame);
      if lu.Success? {
        var issue;
        issue, vue := TraiterMessageClient(etat, pretty, nom, lu.value, a.id, a.now);
        arret := issue.Failure?;
      }
    }
  }

  /**
   * The read loop of an authenticated connection: frames that do not
   * read as a message are skipped, the rest are handled in order until a
   * stream error, a departure or `/quit`. The users and the counter are
   * untouched; what it broadcasts is the reaction to each item it took,
   * in order, each seeing the users in some listing order.
   */
  method BoucleLecture(etat: EtatServeurWs, c: Codec, pretty: JsonValue -> string, nom: string, arrivees: seq<Arrivee>)
    returns (consommees: nat, ghost produits: seq<MessageWebSocket>, ghost vues: seq<Vue>)
    requires etat.Valid()
    modifies etat
    ensures etat.Valid()
    ensures etat.utilisateurs == old(etat.utilisateurs) && etat.compteurConnexions == old(etat.compteurConnexions)
    ensures consommees == ConsommeesDepuis(c, arrivees, 0) && |vues| == consommees
    ensures VuesDe(vues, old(etat.utilisateurs).Keys, old(etat.compteurConnexions))
    ensures etat.diffuses == old(etat.diffuses) + produits
    ensures produits == Diffusions(c, pretty, nom, arrivees[..consommees], vues)
  {
    produits, vues := [], [];
    var i := 0;
    while i < |arrivees|
      invariant 0 <= i <= |arrivees| && |vues| == i
      invariant etat.Valid()
      invariant etat.utilisateurs == old(etat.utilisateurs) && etat.compteurConnexions == old(etat.compteurConnexions)
      invariant ConsommeesDepuis(c, arrivees, i) == ConsommeesDepuis(c, arrivees, 0)
      invariant VuesDe(vues, old(etat.utilisateurs).Keys, old(etat.compteurConnexions))
      invariant etat.diffuses == old(etat.diffuses) + produits
      invariant produits == Diffusions(c, pretty, nom, arrivees[..i], vues)
    {
      ConsommeesPas(c, arrivees, i);
      var arret;
      ghost var vue;
      arret, vue := LireArrivee(etat, c, pretty, nom, arrivees[i]);
      DiffusionsPas(c, pretty, nom, arrivees, vues, i, vue);
      VuesAjout(vues, vue, old(etat.utilisateurs).Keys, old(etat.compteurConnexions));
      ghost var d := DiffusionDe(c, pretty, nom, arrivees[i], vue);
      Text.Concat3(old(etat.diffuses), produits, d);
      produits := produits + d;
      vues := vues + [vue];
      if arret {
        return i + 1, produits, vues;
      }
      i := i + 1;
    }
    consommees := |arrivees|;
    assert arrivees[..|arrivees|] == arrivees;
  }

  /** How the first item of a connection is answered. */
  datatype Accueil = Silence | Refus(texte: string) | Admis(nom: string)

  /**
   * The handshake: only a readable `Connexion` message naming a valid,
   * free user is admitted; an unreadable first frame, a stream error or an
   * empty stream get no answer at all.
   */
  function AccueilDe(c: Codec, utilisateurs: map<string, UtilisateurWebSocket>, premiere: Option<Arrivee>): (a: Accueil)
    ensures a.Silence? <==>
      premiere.None? || premiere.value.lecture.ErreurFlux? || DepuisMessageWebSocket(c, premiere.value.lecture.trame).Failure?
    ensures a.Admis? ==>
      && premiere.Some? && premiere.value.lecture.Recue?
      && var r := DepuisMessageWebSocket(c, premiere.value.lecture.trame);
      && r.Success? && r.value.typeMessage == Connexion && r.value.utilisateur == Some(a.nom)
      && Admission(utilisateurs, a.nom).Success?
    ensures
      (&& premiere.Some? && premiere.value.lecture.Recue?
       && var r := DepuisMessageWebSocket(c, premiere.value.lecture.trame);
       && r.Success? && r.value.typeMessage == Connexion && r.value.utilisateur.Some?
       && Admission(utilisateurs, r.value.utilisateur.value).Success?)
      ==> a.Admis?
    ensures a.Admis? ==> a.nom !in utilisateurs
  {
    if premiere.None? || premiere.value.lecture.ErreurFlux? then Silence
    else match DepuisMessageWebSocket(c, premiere.value.lecture.trame)
      case Failure(_) => Silence
      case Success(m) =>
        if m.typeMessage != Connexion then Refus("Connexion requise avant l'envoi de messages")
        else if m.utilisateur.None? then Refus("Nom d'utilisateur requis pour la connexion")
        else match Admission(utilisateurs, m.utilisateur.value)
          case Failure(e) => Refus("Erreur de connexion: " + e)
          case Success(_) => Admis(m.utilisateur.value)
  }

  function TexteBienvenue(nom: string): string
  {
    "Bienvenue " + nom + " ! Vous êtes connecté au chat WebSocket."
  }

  /**
   * `gerer_connexion_websocket` from the first item on. What is sent to
   * this client directly (not through the broadcast channel) is returned
   * in `directes`; `abonnement` is the point of the broadcast log from
   * which this client's writer task receives, just after its own arrival
   * notice. Between that notice and the departure notice the log holds
   * `produits`, what the read loop broadcast, each item seeing the server
   * as in `vues`. An admitted user is removed once the read loop ends, whatever
   * ended it, so the user table is as before and the counter one higher.
   * `idBienvenue`/`idDepart` and the clock readings are for the welcome
   * and the departure notices.
   */
  method GererConnexion(etat: EtatServeurWs, c: Codec, pretty: JsonValue -> string, adresse: SocketAddr, idSession: string,
                        premiere: Option<Arrivee>, suite: seq<Arrivee>,
                        idBienvenue: Uuid, nowBienvenue: Timestamp, idDepart: Uuid, nowDepart: Timestamp)
    returns (directes: seq<Trame>, abonnement: nat, ghost produits: seq<MessageWebSocket>, ghost vues: seq<Vue>)
    requires etat.Valid()
    modifies etat
    ensures etat.Valid()
    ensures etat.utilisateurs == old(etat.utilisateurs)
    ensures match AccueilDe(c, old(etat.utilisateurs), premiere)
      case Silence => directes == [] && unchanged(etat)
      case Refus(t) =>
        directes == [VersMessageWebSocket(c, NouvelleNotification(premiere.value.id, premiere.value.now, t))] && unchanged(etat)
      case Admis(nom) =>
        && directes == [VersMessageWebSocket(c, NouvelleNotification(idBienvenue, nowBienvenue, TexteBienvenue(nom)))]
        && etat.compteurConnexions == old(etat.compteurConnexions) + 1
        && abonnement == |old(etat.diffuses)| + 1 < |etat.diffuses|
        && etat.diffuses[..abonnement] == old(etat.diffuses)
             + [NouvelleNotification(premiere.value.id, premiere.value.now, TexteArrivee(nom, |old(etat.utilisateurs)| + 1))]
        && etat.diffuses == etat.diffuses[..abonnement] + produits + [NouvelleDeconnexion(idDepart, nowDepart, nom)]
        && |vues| == ConsommeesDepuis(c, suite, 0)
        && produits == Diffusions(c, pretty, nom, suite[..ConsommeesDepuis(c, suite, 0)], vues)
        && VuesDe(vues, old(etat.utilisateurs).Keys + {nom}, old(etat.compteurConnexions) + 1)
    ensures !AccueilDe(c, old(etat.utilisateurs), premiere).Admis? ==> produits == [] && vues == []
  {
    directes := [];
    produits, vues := [], [];
    abonnement := |etat.diffuses|;
    var accueil := AccueilDe(c, etat.utilisateurs, premiere);
    if accueil.Silence? {
      return;
    }
    var a := premiere.value;
    if accueil.Refus? {
      directes := [VersMessageWebSocket(c, NouvelleNotification(a.id, a.now, accueil.texte))];
      return;
    }
    var nom := accueil.nom;
    abonnement, produits, vues := SessionAdmise(etat, c, pretty, nom, adresse, idSession, a, suite, idDepart, nowDepart);
    directes := [VersMessageWebSocket(c, NouvelleNotification(idBienvenue, nowBienvenue, TexteBienvenue(nom)))];
    ghost var arrivee := old(etat.diffuses) + [NouvelleNotification(a.id, a.now, TexteArrivee(nom, |old(etat.utilisateurs)| + 1))];
    assert etat.diffuses == arrivee + produits + [NouvelleDeconnexion(idDepart, nowDepart, nom)];
    assert etat.diffuses[..abonnement] == arrivee;
  }

  /**
   * The admitted user's part of `gerer_connexion_websocket`: the user is
   * added, which broadcasts the arrival notice; the read loop runs over
   * the items that follow; then the user is removed, which broadcasts the
   * departure notice. `abonnement` is the point of the broadcast log just
   * after the arrival notice.
   */
  method SessionAdmise(etat: EtatServeurWs, c: Codec, pretty: JsonValue -> string, nom: string, adresse: SocketAddr, idSession: string,
                       a: Arrivee, suite: seq<Arrivee>, idDepart: Uuid, nowDepart: Timestamp)
    returns (abonnement: nat, ghost produits: seq<MessageWebSocket>, ghost vues: seq<Vue>)
    requires etat.Valid() && ValiderNomUtilisateur(nom).Success? && nom !in etat.utilisateurs
    modifies etat
    ensures etat.Valid()
    ensures etat.utilisateurs == old(etat.utilisateurs) && etat.compteurConnexions == old(etat.compteurConnexions) + 1
    ensures abonnement == |old(etat.diffuses)| + 1
    ensures etat.diffuses == old(etat.diffuses) + [NouvelleNotification(a.id, a.now, TexteArrivee(nom, |old(etat.utilisateurs)| + 1))]
      + produits + [NouvelleDeconnexion(idDepart, nowDepart, nom)]
    ensures |vues| == ConsommeesDepuis(c, suite, 0)
    ensures produits == Diffusions(c, pretty, nom, suite[..ConsommeesDepuis(c, suite, 0)], vues)
    ensures VuesDe(vues, old(etat.utilisateurs).Keys + {nom}, old(etat.compteurConnexions) + 1)
  {
    ghost var avant := etat.utilisateurs;
    var ajout := etat.AjouterUtilisateur(nom, adresse, idSession, a.id, a.now);
    ghost var admis := etat.utilisateurs;
    assert nom in admis && admis.Keys == avant.Keys + {nom} && admis - {nom} == avant by {
      assert nom !in avant;
    }
    abonnement := |etat.diffuses|;
    produits, vues := Seance(etat, c, pretty, nom, suite, idDepart, nowDepart);
  }

  /**
   * The rest of an admitted user's connection: the read loop over the
   * items that follow the first, then the user's removal, which
   * broadcasts the departure notice.
   */
  method Seance(etat: EtatServeurWs, c: Codec, pretty: JsonValue -> string, nom: string, suite: seq<Arrivee>,
                idDepart: Uuid, nowDepart: Timestamp)
    returns (ghost produits: seq<MessageWebSocket>, ghost vues: seq<Vue>)
    requires etat.Valid() && nom in etat.utilisateurs
    modifies etat
    ensures etat.Valid()
    ensures etat.utilisateurs == old(etat.utilisateurs) - {nom} && etat.compteurConnexions == old(etat.compteurConnexions)
    ensures etat.diffuses == old(etat.diffuses) + produits + [NouvelleDeconnexion(idDepart, nowDepart, nom)]
    ensures |vues| == ConsommeesDepuis(c, suite, 0)
    ensures produits == Diffusions(c, pretty, nom, suite[..ConsommeesDepuis(c, suite, 0)], vues)
    ensures VuesDe(vues, old(etat.utilisateurs).Keys, old(etat.compteurConnexions))
  {
    var consommees;
    consommees, produits, vues := BoucleLecture(etat, c, pretty, nom, suite);
    etat.SupprimerUtilisateur(nom, idDepart, nowDepart);
  }

  // ---------------------------------------------------------------------
  // The writer task of one connection.
  // ---------------------------------------------------------------------

  /** A broadcast the writer of `nom`'s connection forwards: anything but `nom`'s own messages (notifications aside). */
  predicate Livrer(nom: string, m: MessageWebSocket)
  {
    !(m.utilisateur == Some(nom) && m.typeMessage != Notification)
  }

  /** The frames the writer of `nom`'s connection sends for the broadcasts `recus`, in order. */
  function Livraisons(c: Codec, nom: string, recus: seq<MessageWebSocket>): seq<Trame>
  {
    if recus == [] then []
    else
      var dernier := recus[|recus| - 1];
      Livraisons(c, nom, recus[..|recus| - 1]) + (if Livrer(nom, dernier) then [VersMessageWebSocket(c, dernier)] else [])
  }

  /** Forwarding is piecewise: the frames for two runs of broadcasts are the frames for each, one after the other. */
  lemma {:induction false} LivraisonsConcat(c: Codec, nom: string, a: seq<MessageWebSocket>, b: seq<MessageWebSocket>)
    ensures Livraisons(c, nom, a + b) == Livraisons(c, nom, a) + Livraisons(c, nom, b)
    decreases |b|
  {
    if b == [] {
      assert a + b == a;
    } else {
      var debut := b[..|b| - 1];
      assert (a + b)[..|a + b| - 1] == a + debut;
      LivraisonsConcat(c, nom, a, debut);
    }
  }

  /** A user never receives back their own chat, file or departure messages, and always receives everyone else's. */
  lemma SansEcho(c: Codec, nom: string, m: MessageWebSocket)
    requires BienForme(m) && m.utilisateur.Some?
    ensures Livraisons(c, nom, [m]) == if m.utilisateur.value == nom then [] else [VersMessageWebSocket(c, m)]
  {
    assert [m][..0] == [];
  }

  /** The writer task: forwards each broadcast it receives unless it is the user's own. */
  method TacheDiffusion(c: Codec, nom: string, recus: seq<MessageWebSocket>) returns (envoyees: seq<Trame>)
    ensures envoyees == Livraisons(c, nom, recus)
  {
    envoyees := [];
    var i := 0;
    while i < |recus|
      invariant 0 <= i <= |recus|
      invariant envoyees == Livraisons(c, nom, recus[..i])
    {
      var m := recus[i];
      assert recus[..i + 1][..i] == recus[..i];
      if Livrer(nom, m) {
        envoyees := envoyees + [VersMessageWebSocket(c, m)];
      }
      i := i + 1;
    }
    assert recus[..i] == recus;
  }
}
