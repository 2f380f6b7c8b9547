/**
 * The remote-calculation protocol: message records, their constructors,
 * the error codes, and the frame format — a 4-byte big-endian length
 * followed by the UTF-8 bytes of the message's JSON text.
 */
module CalcProtocol {
  import opened Wrappers
  import opened Bytes
  import Utf8
  import opened Externals

  datatype TypeOperation =
    | Connexion
    | ConnexionOk
    | Calcul
    | ResultatCalcul
    | InfoServeur
    | ReponseInfoServeur
    | Statistiques
    | ReponseStatistiques
    | Erreur
    | Ping
    | Pong
    | Deconnexion

  datatype OperationMath =
    Addition | Soustraction | Multiplication | Division | Puissance | Racine | Factorielle | Fibonacci

  /** Operands are `f64` in the source; they are only carried here. */
  datatype RequeteCalcul = RequeteCalcul(operation: OperationMath, operande1: real, operande2: Option<real>)

  datatype MessageProtocole = MessageProtocole(
    id: Uuid,
    typeOperation: TypeOperation,
    sessionId: Option<string>,
    requeteCalcul: Option<RequeteCalcul>,
    resultat: Option<real>,
    contenu: Option<string>,
    donnees: Option<JsonValue>,
    timestamp: Timestamp)

  type Codec = JsonCodec<MessageProtocole>

  // Error codes carried in the `code` field of an `Erreur` message.
  const SessionInvalide: string := "INVALID_SESSION"
  const OperationInvalide: string := "INVALID_OPERATION"
  const ParametresInvalides: string := "INVALID_PARAMETERS"
  const DivisionParZero: string := "DIVISION_BY_ZERO"
  const OverflowMathematique: string := "MATH_OVERFLOW"
  const MessageMalforme: string := "MALFORMED_MESSAGE"
  const NonAuthentifie: string := "NOT_AUTHENTICATED"
  const ServeurSurcharge: string := "SERVER_OVERLOADED"

  /** The optional fields of a message. */
  datatype Champ = ChampSession | ChampRequete | ChampResultat | ChampContenu | ChampDonnees

  /** Which optional fields a message carries. */
  function ChampsPresents(m: MessageProtocole): set<Champ>
  {
    (if m.sessionId.Some? then {ChampSession} else {})
    + (if m.requeteCalcul.Some? then {ChampRequete} else {})
    + (if m.resultat.Some? then {ChampResultat} else {})
    + (if m.contenu.Some? then {ChampContenu} else {})
    + (if m.donnees.Some? then {ChampDonnees} else {})
  }

  /** A message with only the mandatory fields set. */
  function Base(id: Uuid, t: TypeOperation, now: Timestamp): (m: MessageProtocole)
    ensures ChampsPresents(m) == {}
  {
    MessageProtocole(id, t, None, None, None, None, None, now)
  }

  // Constructors. `id` is the fresh UUID and `now` the clock reading the source draws.

  function NouvelleConnexion(id: Uuid, now: Timestamp, sessionId: string): (m: MessageProtocole)
    ensures m.typeOperation == Connexion && m.id == id && m.timestamp == now
    ensures ChampsPresents(m) == {ChampSession} && m.sessionId == Some(sessionId)
  {
    Base(id, Connexion, now).(sessionId := Some(sessionId))
  }

  function NouvelleConnexionOk(id: Uuid, now: Timestamp, bienvenue: string): (m: MessageProtocole)
    ensures m.typeOperation == ConnexionOk && m.id == id && m.timestamp == now
    ensures ChampsPresents(m) == {ChampContenu} && m.contenu == Some(bienvenue)
  {
    Base(id, ConnexionOk, now).(contenu := Some(bienvenue))
  }

  function NouvelleRequeteCalcul(id: Uuid, now: Timestamp, sessionId: string, requete: RequeteCalcul): (m: MessageProtocole)
    ensures m.typeOperation == Calcul && m.id == id && m.timestamp == now
    ensures ChampsPresents(m) == {ChampSession, ChampRequete}
    ensures m.sessionId == Some(sessionId) && m.requeteCalcul == Some(requete)
  {
    Base(id, Calcul, now).(sessionId := Some(sessionId), requeteCalcul := Some(requete))
  }

  /** The result reuses the request's id, so the client can correlate it; no fresh id is drawn. */
  function NouveauResultatCalcul(requeteId: Uuid, now: Timestamp, resultat: real, details: Option<string>): (m: MessageProtocole)
    ensures m.typeOperation == ResultatCalcul && m.id == requeteId && m.timestamp == now
    ensures ChampsPresents(m) == {ChampResultat} + (if details.Some? then {ChampContenu} else {})
    ensures m.resultat == Some(resultat) && m.contenu == details
  {
    Base(requeteId, ResultatCalcul, now).(resultat := Some(resultat), contenu := details)
  }

  function NouvelleDemandeInfoServeur(id: Uuid, now: Timestamp, sessionId: string): (m: MessageProtocole)
    ensures m.typeOperation == InfoServeur && m.id == id && m.timestamp == now
    ensures ChampsPresents(m) == {ChampSession} && m.sessionId == Some(sessionId)
  {
    Base(id, InfoServeur, now).(sessionId := Some(sessionId))
  }

  function NouvelleReponseInfoServeur(id: Uuid, now: Timestamp, info: JsonValue): (m: MessageProtocole)
    ensures m.typeOperation == ReponseInfoServeur && m.id == id && m.timestamp == now
    ensures ChampsPresents(m) == {ChampDonnees} && m.donnees == Some(info)
  {
    Base(id, ReponseInfoServeur, now).(donnees := Some(info))
  }

  function NouvelleDemandeStatistiques(id: Uuid, now: Timestamp, sessionId: string): (m: MessageProtocole)
    ensures m.typeOperation == Statistiques && m.id == id && m.timestamp == now
    ensures ChampsPresents(m) == {ChampSession} && m.sessionId == Some(sessionId)
  {
    Base(id, Statistiques, now).(sessionId := Some(sessionId))
  }

  function NouvelleReponseStatistiques(id: Uuid, now: Timestamp, stats: JsonValue): (m: MessageProtocole)
    ensures m.typeOperation == ReponseStatistiques && m.id == id && m.timestamp == now
    ensures ChampsPresents(m) == {ChampDonnees} && m.donnees == Some(stats)
  {
    Base(id, ReponseStatistiques, now).(donnees := Some(stats))
  }

  /** `donnees` of an error: an object with exactly the keys `code` and `description`. */
  function NouvelleErreur(id: Uuid, now: Timestamp, code: string, description: string): (m: MessageProtocole)
    ensures m.typeOperation == Erreur && m.id == id && m.timestamp == now
    ensures ChampsPresents(m) == {ChampDonnees} && m.donnees.value.JObject?
    ensures m.donnees.value.fields.Keys == {"code", "description"}
    ensures m.donnees.value.fields["code"] == JString(code)
    ensures m.donnees.value.fields["description"] == JString(description)
  {
    var donnees := map["code" := JString(code), "description" := JString(description)];
    Base(id, Erreur, now).(donnees := Some(JObject(donnees)))
  }

  function NouveauPing(id: Uuid, now: Timestamp): (m: MessageProtocole)
    ensures m.typeOperation == Ping && m.id == id && m.timestamp == now
    ensures ChampsPresents(m) == {}
  {
    Base(id, Ping, now)
  }

  /** A pong has an id of its own and carries the ping's id, as text, in `donnees`. */
  function NouveauPong(id: Uuid, now: Timestamp, pingId: Uuid): (m: MessageProtocole)
    ensures m.typeOperation == Pong && m.id == id && m.timestamp == now
    ensures ChampsPresents(m) == {ChampDonnees} && m.donnees == Some(JString(pingId.text))
  {
    Base(id, Pong, now).(donnees := Some(JString(pingId.text)))
  }

  function NouvelleDeconnexion(id: Uuid, now: Timestamp, sessionId: string): (m: MessageProtocole)
    ensures m.typeOperation == Deconnexion && m.id == id && m.timestamp == now
    ensures ChampsPresents(m) == {ChampSession} && m.sessionId == Some(sessionId)
  {
    Base(id, Deconnexion, now).(sessionId := Some(sessionId))
  }

  // The frame format.

  const TailleMax: nat := 0x1_0000_0000

  /** The UTF-8 bytes of the message's JSON text. */
  function JsonBytes(c: Codec, m: MessageProtocole): seq<uint8>
  {
    Utf8.Encode(c.encode(m))
  }

  /** The length a frame header declares: its first four bytes, big-endian. */
  function TailleDeclaree(bytes: seq<uint8>): nat
    requires |bytes| >= 4
  {
    U32FromBytes(bytes[0], bytes[1], bytes[2], bytes[3])
  }

  /**
   * The frame of a message. The byte count is cast to `u32`, so a JSON text
   * of 4 GiB or more gets a header that declares its length modulo 2^32.
   */
  function VersBytes(c: Codec, m: MessageProtocole): (r: seq<uint8>)
    ensures |r| == 4 + |JsonBytes(c, m)|
    ensures r[4..] == JsonBytes(c, m)
  {
    var json := JsonBytes(c, m);
    U32ToBytes(|json| % TailleMax) + json
  }

  /** The header of a frame declares the byte count of its JSON text, modulo 2^32. */
  lemma TailleDeclareeVersBytes(c: Codec, m: MessageProtocole)
    ensures TailleDeclaree(VersBytes(c, m)) == |JsonBytes(c, m)| % TailleMax
  {
    U32RoundTrip(|JsonBytes(c, m)| % TailleMax);
  }

  datatype ErreurTrame = TailleInsuffisante | MessageInsuffisant | Utf8Invalide | JsonInvalide

  /**
   * Reads the first frame of `bytes`: the message and the number of bytes
   * the frame occupies. Bytes after the frame are not looked at.
   */
  function DepuisBytes(c: Codec, bytes: seq<uint8>): (r: Result<(MessageProtocole, nat), ErreurTrame>)
    ensures r == Failure(TailleInsuffisante) <==> |bytes| < 4
    ensures r == Failure(MessageInsuffisant) <==> 4 <= |bytes| < 4 + TailleDeclaree(bytes)
    ensures r.Success? ==> r.value.1 == 4 + TailleDeclaree(bytes) <= |bytes|
  {
    if |bytes| < 4 then Failure(TailleInsuffisante)
    else
      var taille := TailleDeclaree(bytes);
      if |bytes| < 4 + taille then Failure(MessageInsuffisant)
      else match Utf8.Decode(bytes[4..4 + taille])
        case None => Failure(Utf8Invalide)
        case Some(json) =>
          match c.decode(json)
          case None => Failure(JsonInvalide)
          case Some(m) => Success((m, 4 + taille))
  }

  /** A frame read is the UTF-8 text of a JSON document the codec accepts. */
  lemma DepuisBytesContenu(c: Codec, bytes: seq<uint8>)
    requires DepuisBytes(c, bytes).Success?
    ensures var (m, n) := DepuisBytes(c, bytes).value;
      exists json :: Utf8.Encode(json) == bytes[4..n] && c.decode(json) == Some(m)
  {
    var json := Utf8.Decode(bytes[4..DepuisBytes(c, bytes).value.1]).value;
    assert Utf8.Encode(json) == bytes[4..DepuisBytes(c, bytes).value.1];
  }

  /**
   * Reading back a frame gives the message and consumes exactly the frame,
   * whatever follows it (a second frame, say), provided the JSON layer
   * round-trips and the text is shorter than 4 GiB.
   */
  lemma DepuisVersBytes(c: Codec, m: MessageProtocole, suite: seq<uint8>)
    requires RoundTrips(c)
    requires |JsonBytes(c, m)| < TailleMax
    ensures DepuisBytes(c, VersBytes(c, m) + suite) == Success((m, |VersBytes(c, m)|))
  {
    var json := c.encode(m);
    var trame := VersBytes(c, m);
    var bytes := trame + suite;
    var taille := |JsonBytes(c, m)|;
    TailleDeclareeVersBytes(c, m);
    TailleDeclareePrefixe(trame, suite);
    assert bytes[4..4 + taille] == trame[4..];
    DepuisBytesTexte(c, bytes, json, m);
  }

  /** A buffer holding a header, then the UTF-8 form of a text the codec reads as `m`, decodes to `m`. */
  lemma DepuisBytesTexte(c: Codec, bytes: seq<uint8>, json: string, m: MessageProtocole)
    requires |bytes| >= 4 && TailleDeclaree(bytes) == |Utf8.Encode(json)| <= |bytes| - 4
    requires bytes[4..4 + |Utf8.Encode(json)|] == Utf8.Encode(json)
    requires c.decode(json) == Some(m)
    ensures DepuisBytes(c, bytes) == Success((m, 4 + |Utf8.Encode(json)|))
  {
    Utf8.DecodeEncode(json);
  }

  /** A frame cut short is reported as incomplete, never as malformed. */
  lemma DepuisBytesTronque(c: Codec, m: MessageProtocole, k: nat)
    requires |JsonBytes(c, m)| < TailleMax
    requires k < |VersBytes(c, m)|
    ensures DepuisBytes(c, VersBytes(c, m)[..k]).Failure?
    ensures DepuisBytes(c, VersBytes(c, m)[..k]).error in {TailleInsuffisante, MessageInsuffisant}
  {
    if k >= 4 {
      TailleDeclareeVersBytes(c, m);
      TailleDeclareeCoupe(VersBytes(c, m), k, |JsonBytes(c, m)|);
    }
  }

  /** A prefix of at least four bytes declares the same length as the whole buffer. */
  lemma TailleDeclareeCoupe(trame: seq<uint8>, k: nat, taille: nat)
    requires 4 <= k <= |trame| && TailleDeclaree(trame) == taille
    ensures TailleDeclaree(trame[..k]) == taille
  {
    assert trame == trame[..k] + trame[k..];
    TailleDeclareePrefixe(trame[..k], trame[k..]);
  }

  /** The declared length depends only on the first four bytes. */
  lemma TailleDeclareePrefixe(a: seq<uint8>, b: seq<uint8>)
    requires |a| >= 4
    ensures TailleDeclaree(a + b) == TailleDeclaree(a)
  {
    var ab := a + b;
    assert ab[0] == a[0] && ab[1] == a[1] && ab[2] == a[2] && ab[3] == a[3];
  }
}
