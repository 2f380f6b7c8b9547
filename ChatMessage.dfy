/**
 * The chat service's message envelope: its kinds, its constructors, the
 * choice between a text and a binary WebSocket frame, reading a frame
 * back, and the user-name rule.
 */
module ChatMessage {
  import opened Wrappers
  import opened Bytes
  import Utf8
  import opened Externals
  import Text

  datatype TypeMessageWs =
    | Chat
    | Binaire
    | Connexion
    | Deconnexion
    | Notification
    | DemandeUtilisateurs
    | ListeUtilisateurs
    | Ping
    | Pong

  datatype MessageWebSocket = MessageWebSocket(
    id: Uuid,
    typeMessage: TypeMessageWs,
    utilisateur: Option<string>,
    contenu: Option<string>,
    donneesBinaires: Option<seq<uint8>>,
    metadonnees: Option<JsonValue>,
    timestamp: Timestamp)

  type Codec = JsonCodec<MessageWebSocket>

  /** The kinds a user sends in their own name; every other kind comes from the server and has no sender. */
  predicate AExpediteur(t: TypeMessageWs)
  {
    t in {Chat, Binaire, Connexion, Deconnexion}
  }

  /**
   * The shape every constructor gives a message: a sender exactly for the
   * kinds users send, binary data only on `Binaire`, and text only on
   * chat, notification and departure messages.
   */
  predicate BienForme(m: MessageWebSocket)
  {
    && (m.utilisateur.Some? <==> AExpediteur(m.typeMessage))
    && (m.donneesBinaires.Some? <==> m.typeMessage == Binaire)
    && (m.contenu.Some? <==> m.typeMessage in {Chat, Notification, Deconnexion})
    && (m.metadonnees.Some? <==> m.typeMessage in {Binaire, ListeUtilisateurs, Pong})
  }

  // Constructors. `id` is the fresh UUID and `now` the clock reading the source draws.

  function NouveauChat(id: Uuid, now: Timestamp, utilisateur: string, contenu: string): (m: MessageWebSocket)
    ensures BienForme(m) && m.typeMessage == Chat && m.id == id && m.timestamp == now
    ensures m.utilisateur == Some(utilisateur) && m.contenu == Some(contenu)
  {
    MessageWebSocket(id, Chat, Some(utilisateur), Some(contenu), None, None, now)
  }

  /** The metadata of a binary message: the data's length, and the file name when one is given. */
  function MetaBinaire(donnees: seq<uint8>, nomFichier: Option<string>): (j: JsonValue)
    ensures j.JObject? && "taille" in j.fields && j.fields["taille"] == JNumber(|donnees| as real)
    ensures j.fields.Keys == {"taille"} + (if nomFichier.Some? then {"nom_fichier"} else {})
    ensures nomFichier.Some? ==> j.fields["nom_fichier"] == JString(nomFichier.value)
  {
    var base: map<string, JsonValue> := if nomFichier.Some? then map["nom_fichier" := JString(nomFichier.value)] else map[];
    JObject(base["taille" := JNumber(|donnees| as real)])
  }

  function NouveauBinaire(id: Uuid, now: Timestamp, utilisateur: string, donnees: seq<uint8>, nomFichier: Option<string>): (m: MessageWebSocket)
    ensures BienForme(m) && m.typeMessage == Binaire && m.id == id && m.timestamp == now
    ensures m.utilisateur == Some(utilisateur) && m.donneesBinaires == Some(donnees)
    ensures m.metadonnees == Some(MetaBinaire(donnees, nomFichier))
  {
    MessageWebSocket(id, Binaire, Some(utilisateur), None, Some(donnees), Some(MetaBinaire(donnees, nomFichier)), now)
  }

  function NouvelleConnexion(id: Uuid, now: Timestamp, utilisateur: string): (m: MessageWebSocket)
    ensures BienForme(m) && m.typeMessage == Connexion && m.id == id && m.timestamp == now
    ensures m.utilisateur == Some(utilisateur)
  {
    MessageWebSocket(id, Connexion, Some(utilisateur), None, None, None, now)
  }

  function NouvelleDeconnexion(id: Uuid, now: Timestamp, utilisateur: string): (m: MessageWebSocket)
    ensures BienForme(m) && m.typeMessage == Deconnexion && m.id == id && m.timestamp == now
    ensures m.utilisateur == Some(utilisateur) && m.contenu == Some(utilisateur + " a quitté le chat")
  {
    MessageWebSocket(id, Deconnexion, Some(utilisateur), Some(utilisateur + " a quitté le chat"), None, None, now)
  }

  function NouvelleNotification(id: Uuid, now: Timestamp, contenu: string): (m: MessageWebSocket)
    ensures BienForme(m) && m.typeMessage == Notification && m.id == id && m.timestamp == now
    ensures m.contenu == Some(contenu)
  {
    MessageWebSocket(id, Notification, None, Some(contenu), None, None, now)
  }

  function NouvelleDemandeUtilisateurs(id: Uuid, now: Timestamp): (m: MessageWebSocket)
    ensures BienForme(m) && m.typeMessage == DemandeUtilisateurs && m.id == id && m.timestamp == now
  {
    MessageWebSocket(id, DemandeUtilisateurs, None, None, None, None, now)
  }

  /** A list of names as the JSON array `serde_json::to_value` makes of a `Vec<String>`. */
  function JsonNoms(noms: seq<string>): (j: JsonValue)
    ensures j.JArray? && |j.items| == |noms|
    ensures forall i | 0 <= i < |noms| :: j.items[i] == JString(noms[i])
  {
    JArray(seq(|noms|, i requires 0 <= i < |noms| => JString(noms[i])))
  }

  /** The names a JSON value stands for, when it is an array of strings (`from_value::<Vec<String>>`). */
  function NomsJson(j: JsonValue): (r: Option<seq<string>>)
    ensures r.Some? ==> j.JArray? && |r.value| == |j.items|
  {
    if j.JArray? && forall i | 0 <= i < |j.items| :: j.items[i].JString? then
      Some(seq(|j.items|, i requires 0 <= i < |j.items| => j.items[i].s))
    else None
  }

  lemma NomsJsonNoms(noms: seq<string>)
    ensures NomsJson(JsonNoms(noms)) == Some(noms)
  {
    var j := JsonNoms(noms);
    assert forall i | 0 <= i < |j.items| :: j.items[i].JString?;
    var r := seq(|j.items|, i requires 0 <= i < |j.items| => j.items[i].s);
    assert r == noms;
  }

  function NouvelleListeUtilisateurs(id: Uuid, now: Timestamp, utilisateurs: seq<string>): (m: MessageWebSocket)
    ensures BienForme(m) && m.typeMessage == ListeUtilisateurs && m.id == id && m.timestamp == now
    ensures m.metadonnees.Some? && NomsJson(m.metadonnees.value) == Some(utilisateurs)
  {
    NomsJsonNoms(utilisateurs);
    MessageWebSocket(id, ListeUtilisateurs, None, None, None, Some(JsonNoms(utilisateurs)), now)
  }

  function NouveauPing(id: Uuid, now: Timestamp): (m: MessageWebSocket)
    ensures BienForme(m) && m.typeMessage == Ping && m.id == id && m.timestamp == now
  {
    MessageWebSocket(id, Ping, None, None, None, None, now)
  }

  /** A pong has an id of its own and carries the ping's id, as text, in its metadata. */
  function NouveauPong(id: Uuid, now: Timestamp, pingId: Uuid): (m: MessageWebSocket)
    ensures BienForme(m) && m.typeMessage == Pong && m.id == id && m.timestamp == now
    ensures m.metadonnees == Some(JString(pingId.text))
  {
    MessageWebSocket(id, Pong, None, None, None, Some(JString(pingId.text)), now)
  }

  /** Sent as a binary frame: a `Binaire` message, or any message that carries binary data. */
  predicate EstBinaire(m: MessageWebSocket)
  {
    m.typeMessage == Binaire || m.donneesBinaires.Some?
  }

  /** On the messages the constructors build, a binary frame is used exactly for `Binaire`. */
  lemma EstBinaireBienForme(m: MessageWebSocket)
    requires BienForme(m)
    ensures EstBinaire(m) <==> m.typeMessage == Binaire
  {
  }

  /** A WebSocket frame: text, binary, or one of the control frames (ping, pong, close). */
  datatype Trame = Text(texte: string) | Binary(octets: seq<uint8>) | Controle

  /** The frame a message is sent in; the payload is the message's JSON text either way. */
  function VersMessageWebSocket(c: Codec, m: MessageWebSocket): (t: Trame)
    ensures t.Binary? <==> EstBinaire(m)
    ensures !t.Controle?
    ensures t.Text? ==> t.texte == c.encode(m)
    ensures t.Binary? ==> t.octets == Utf8.Encode(c.encode(m))
  {
    if EstBinaire(m) then Binary(Utf8.Encode(c.encode(m))) else Text(c.encode(m))
  }

  datatype ErreurWs = TypeNonSupporte | Utf8Invalide | JsonInvalide

  /** Reads a message out of a frame: text as JSON, binary data as UTF-8 JSON; control frames are refused. */
  function DepuisMessageWebSocket(c: Codec, t: Trame): (r: Result<MessageWebSocket, ErreurWs>)
    ensures r == Failure(TypeNonSupporte) <==> t.Controle?
    ensures r == Failure(Utf8Invalide) <==> t.Binary? && Utf8.Decode(t.octets).None?
    ensures t.Text? ==> r == (if c.decode(t.texte).Some? then Success(c.decode(t.texte).value) else Failure(JsonInvalide))
    ensures t.Binary? && Utf8.Decode(t.octets).Some? ==>
      var texte := Utf8.Decode(t.octets).value;
      r == (if c.decode(texte).Some? then Success(c.decode(texte).value) else Failure(JsonInvalide))
  {
    match t
    case Text(s) =>
      (match c.decode(s)
       case Some(m) => Success(m)
       case None => Failure(JsonInvalide))
    case Binary(b) =>
      (match Utf8.Decode(b)
       case None => Failure(Utf8Invalide)
       case Some(s) =>
         match c.decode(s)
         case Some(m) => Success(m)
         case None => Failure(JsonInvalide))
    case Controle => Failure(TypeNonSupporte)
  }

  /** A message read back from the frame it was sent in is the message itself, given the JSON round trip. */
  lemma DepuisVersMessageWebSocket(c: Codec, m: MessageWebSocket)
    requires RoundTrips(c)
    ensures DepuisMessageWebSocket(c, VersMessageWebSocket(c, m)) == Success(m)
  {
    Utf8.DecodeEncode(c.encode(m));
  }

  /** Why a user name is refused; the checks are made in this order. */
  datatype ErreurNom = NomVide | NomTropLong | NomAvecEspace

  /** The message the source returns for each refusal. */
  function TexteErreurNom(e: ErreurNom): string
  {
    match e
    case NomVide => "Le nom d'utilisateur ne peut pas être vide"
    case NomTropLong => "Le nom d'utilisateur ne peut pas dépasser 50 caractères"
    case NomAvecEspace => "Le nom d'utilisateur ne peut pas contenir d'espaces"
  }

  /** The longest accepted name, in UTF-8 bytes (Rust's `str::len`), not characters. */
  const LongueurNomMax: nat := 50

  /** `utils::valider_nom_utilisateur`. Only the space character is refused, not other white space. */
  function ValiderNomUtilisateur(nom: string): (r: Result<(), ErreurNom>)
    ensures r == Failure(NomVide) <==> nom == []
    ensures r == Failure(NomTropLong) <==> nom != [] && Utf8.ByteLength(nom) > LongueurNomMax
    ensures r == Failure(NomAvecEspace) <==> nom != [] && Utf8.ByteLength(nom) <= LongueurNomMax && ' ' in nom
    ensures r.Success? <==> nom != [] && Utf8.ByteLength(nom) <= LongueurNomMax && ' ' !in nom
  {
    if nom == [] then Failure(NomVide)
    else if Utf8.ByteLength(nom) > LongueurNomMax then Failure(NomTropLong)
    else if ' ' in nom then Failure(NomAvecEspace)
    else Success(())
  }

  /** Fifty-one ASCII letters are one byte too many (the source's test uses "A" repeated 51 times). */
  lemma {:induction false} NomAsciiLongueur(nom: string)
    requires Utf8.IsAscii(nom)
    ensures Utf8.ByteLength(nom) == |nom|
  {
    if nom != [] {
      assert Utf8.IsAscii(nom[1..]) by {
        assert forall i | 0 <= i < |nom[1..]| :: nom[1..][i] == nom[i + 1];
      }
      NomAsciiLongueur(nom[1..]);
    }
  }
}
