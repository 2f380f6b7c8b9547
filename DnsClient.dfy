/**
 * The DNS client of tp7: the A query it sends for a name, and how it reads
 * the datagram that comes back into an address, or into nothing.
 *
 * The random query id and what the socket delivers (a datagram, a receive
 * error, or nothing within the five-second timeout) are parameters.
 */
module DnsClient {
  import opened Wrappers
  import opened Bytes
  import opened Dns
  import DnsServer
  import Text

  /** What waiting on the socket gives: a datagram, an error, or the timeout. */
  datatype Reception = Recu(datagramme: seq<uint8>) | ErreurReception | Delai

  /** The size of the receive buffer: a longer datagram is cut to it. */
  const TailleTampon: nat := 512

  /** The query `resoudre_domaine` sends: one A question of class IN. */
  function Requete(id: uint16, domaine: Nom): (m: DnsMessage)
    ensures m.header.id == id && m.header.qdcount == 1 && m.header.ancount == 0
    ensures m.questions == [DnsQuestion(domaine, DnsTypeA, ClasseIn)] && m.answers == []
  {
    NouvelleRequete(id, domaine, DnsTypeA)
  }

  /** An answer the client can use: type A with four bytes of data. */
  predicate Ipv4(a: DnsAnswer)
  {
    a.rtype == DnsTypeA && |a.rdata| == 4
  }

  /** The first usable answer, if any: the `for` loop with its early return. */
  function PremiereIpv4(answers: seq<DnsAnswer>): (r: Option<DnsAnswer>)
    ensures r.Some? ==> Ipv4(r.value)
  {
    if answers == [] then None
    else if Ipv4(answers[0]) then Some(answers[0])
    else PremiereIpv4(answers[1..])
  }

  /** The dotted-quad text of four address bytes. */
  function Quad(ip: seq<uint8>): (r: string)
    requires |ip| == 4
  {
    Text.Join([Text.NatToString(ip[0]), Text.NatToString(ip[1]), Text.NatToString(ip[2]), Text.NatToString(ip[3])], '.')
  }

  /**
   * What the client makes of a parsed response to its query `id`: nothing
   * for another id or a non-zero RCODE, otherwise the first usable address.
   */
  function Lire(id: uint16, reponse: DnsMessage): Option<string>
  {
    if reponse.header.id != id then None
    else if Rcode(reponse.header.flags) != 0 then None
    else match PremiereIpv4(reponse.answers)
      case None => None
      case Some(a) => Some(Quad(a.rdata))
  }

  /** The bytes the buffer holds of a datagram. */
  function Tampon(datagramme: seq<uint8>): (r: seq<uint8>)
    ensures |r| <= TailleTampon && r <= datagramme
  {
    if |datagramme| <= TailleTampon then datagramme else datagramme[..TailleTampon]
  }

  /**
   * The result of `resoudre_domaine`: a receive error is an error; the
   * timeout and an unparseable datagram give nothing.
   */
  function Resultat(id: uint16, reception: Reception): Result<Option<string>, ()>
  {
    match reception
    case Delai => Success(None)
    case ErreurReception => Failure(())
    case Recu(datagramme) =>
      match MessageFromBytes(Tampon(datagramme))
      case Failure(_) => Success(None)
      case Success(reponse) => Success(Lire(id, reponse))
  }

  // ---------------------------------------------------------------- the client

  // `ClientDns` holds only the socket and the server address, which are left to the caller.

  /** The loop over the answers: the first usable one, in order. */
  method ChercherIpv4(answers: seq<DnsAnswer>) returns (r: Option<DnsAnswer>)
    ensures r == PremiereIpv4(answers)
  {
    for i := 0 to |answers|
      invariant PremiereIpv4(answers) == PremiereIpv4(answers[i..])
    {
      var answer := answers[i];
      assert answers[i..][1..] == answers[i + 1..];
      if answer.rtype == DnsTypeA && |answer.rdata| == 4 {
        return Some(answer);
      }
    }
    return None;
  }

  /**
   * `resoudre_domaine(domaine)` with query id `id`: the bytes it sends,
   * and what it returns once `reception` has happened.
   */
  method ResoudreDomaine(id: uint16, domaine: Nom, reception: Reception)
    returns (envoi: seq<uint8>, resultat: Result<Option<string>, ()>)
    ensures envoi == MessageToBytes(Requete(id, domaine))
    ensures resultat == Resultat(id, reception)
  {
    var requete := NouvelleRequete(id, domaine, DnsTypeA);
    envoi := ToBytes(requete);
    match reception {
      case Delai =>
        return envoi, Success(None);
      case ErreurReception =>
        return envoi, Failure(());
      case Recu(datagramme) =>
        var taille := if |datagramme| <= TailleTampon then |datagramme| else TailleTampon;
        var tampon := datagramme[..taille];
        assert tampon == Tampon(datagramme);
        var lu := FromBytes(tampon);
        if lu.Failure? {
          return envoi, Success(None);
        }
        var adresse := LireReponse(id, lu.value);
        return envoi, Success(adresse);
    }
  }

  /** What the client makes of a parsed response: the id check, the RCODE, then the loop over the answers. */
  method LireReponse(id: uint16, reponse: DnsMessage) returns (adresse: Option<string>)
    ensures adresse == Lire(id, reponse)
  {
    if reponse.header.id != id {
      return None;
    }
    var rcode := Et(reponse.header.flags, 0x000F);
    if rcode != 0 {
      return None;
    }
    if |reponse.answers| == 0 {
      return None;
    }
    var trouve := ChercherIpv4(reponse.answers);
    if trouve.None? {
      return None;
    }
    return Some(Quad(trouve.value.rdata));
  }

  // ---------------------------------------------------------------- properties

  /** The first usable answer is usable, and no answer before it is. */
  lemma {:induction false} PremiereIpv4Est(answers: seq<DnsAnswer>)
    ensures PremiereIpv4(answers).None? <==> forall k | 0 <= k < |answers| :: !Ipv4(answers[k])
    ensures PremiereIpv4(answers).Some? ==>
              exists k | 0 <= k < |answers| :: answers[k] == PremiereIpv4(answers).value && Ipv4(answers[k])
                                               && forall j | 0 <= j < k :: !Ipv4(answers[j])
  {
    if answers != [] && !Ipv4(answers[0]) {
      var reste := answers[1..];
      PremiereIpv4Est(reste);
      assert forall k | 0 <= k < |reste| :: reste[k] == answers[k + 1];
      if PremiereIpv4(reste).Some? {
        var k :| 0 <= k < |reste| && reste[k] == PremiereIpv4(reste).value && Ipv4(reste[k])
                 && forall j | 0 <= j < k :: !Ipv4(reste[j]);
        assert answers[k + 1] == reste[k];
        assert forall j | 0 <= j < k + 1 :: !Ipv4(answers[j]) by {
          forall j | 0 <= j < k + 1 ensures !Ipv4(answers[j]) {
            if j > 0 {
              assert answers[j] == reste[j - 1];
            }
          }
        }
      } else {
        forall k | 0 <= k < |answers| ensures !Ipv4(answers[k]) {
          if k > 0 {
            assert answers[k] == reste[k - 1];
          }
        }
      }
    }
  }

  lemma SansPoint(n: nat)
    ensures '.' !in Text.NatToString(n)
  {
  }

  /** The dotted quad reads back: four decimal byte values separated by dots. */
  lemma QuadLu(ip: seq<uint8>)
    requires |ip| == 4
    ensures |Text.Split(Quad(ip), '.')| == 4
    ensures forall k | 0 <= k < 4 :: Text.ParseUnsigned(Text.Split(Quad(ip), '.')[k], 255) == Some(ip[k] as nat)
  {
    var parts := [Text.NatToString(ip[0]), Text.NatToString(ip[1]), Text.NatToString(ip[2]), Text.NatToString(ip[3])];
    SansPoint(ip[0]);
    SansPoint(ip[1]);
    SansPoint(ip[2]);
    SansPoint(ip[3]);
    Text.SplitJoin(parts, '.');
    forall k | 0 <= k < 4 ensures Text.ParseUnsigned(parts[k], 255) == Some(ip[k] as nat) {
      Text.ParseNatToString(ip[k], 255);
    }
  }

  /** A response to another query, or with a non-zero RCODE, gives no address. */
  lemma RienSansSucces(id: uint16, reponse: DnsMessage)
    requires reponse.header.id != id || Rcode(reponse.header.flags) != 0
    ensures Lire(id, reponse) == None
  {
  }

  /**
   * The client returns an address exactly when a datagram arrived that
   * parses, answers its id with RCODE 0, and holds a usable answer; the
   * address is that of the first such answer.
   */
  lemma ResultatAdresse(id: uint16, reception: Reception, ip: string)
    ensures Resultat(id, reception) == Success(Some(ip))
            <==> reception.Recu? && MessageFromBytes(Tampon(reception.datagramme)).Success?
                 && var reponse := MessageFromBytes(Tampon(reception.datagramme)).value;
                    reponse.header.id == id && Rcode(reponse.header.flags) == 0
                    && PremiereIpv4(reponse.answers).Some? && ip == Quad(PremiereIpv4(reponse.answers).value.rdata)
  {
  }

  /** Only a receive error is an error; the timeout gives nothing. */
  lemma ResultatErreur(id: uint16, reception: Reception)
    ensures Resultat(id, reception).Failure? <==> reception == ErreurReception
    ensures reception == Delai ==> Resultat(id, reception) == Success(None)
  {
  }

  /** The query for a valid name parses back as itself. */
  lemma RequeteLue(id: uint16, domaine: Nom)
    requires NomValide(domaine)
    ensures MessageFromBytes(MessageToBytes(Requete(id, domaine))) == Success(Requete(id, domaine))
  {
    var requete := Requete(id, domaine);
    assert QuestionsValides(requete.questions) by {
      assert requete.questions[1..] == [];
    }
    assert ReponsesValides([]);
    MessageRoundTrip(requete);
  }

  /**
   * The server's response to the query for a name of its table: the query's
   * id, RCODE 0, the table's A record as its only answer, and it parses back
   * as itself.
   */
  lemma ReponseConnue(domaines: map<Nom, DnsServer.Ipv4>, id: uint16, domaine: Nom)
    requires domaine in domaines && NomValide(domaine)
    ensures var reponse := DnsServer.ReponseA(domaines, Requete(id, domaine));
            reponse.header.id == id && Rcode(reponse.header.flags) == 0
            && reponse.answers == [DnsServer.Enregistrement(domaines, DnsQuestion(domaine, DnsTypeA, ClasseIn))]
            && MessageFromBytes(MessageToBytes(reponse)) == Success(reponse)
            && |MessageToBytes(reponse)| == 30 + 2 * |NomEncode(domaine)|
  {
    var requete := Requete(id, domaine);
    var q := DnsQuestion(domaine, DnsTypeA, ClasseIn);
    var reponse := DnsServer.ReponseA(domaines, requete);
    DnsServer.ReponseEnTete(domaines, requete);
    DnsServer.ReponseRcode(domaines, requete);
    DnsServer.ReponseReponses(domaines, requete);
    assert DnsServer.Connues(domaines, requete.questions) == [q] by {
      assert requete.questions[1..] == [];
    }
    var a := DnsServer.Enregistrement(domaines, q);
    assert QuestionsValides(reponse.questions) by {
      assert reponse.questions[1..] == [];
    }
    assert ReponsesValides(reponse.answers) by {
      assert reponse.answers[1..] == [];
    }
    MessageRoundTrip(reponse);
    assert QuestionsToBytes(reponse.questions) == QuestionToBytes(q) + QuestionsToBytes([]);
    assert AnswersToBytes(reponse.answers) == AnswerToBytes(a) + AnswersToBytes([]);
  }

  /**
   * End to end: the query for a name the server knows, read by the server,
   * answered and read back by the client, gives the address of the table.
   */
  lemma Resolution(domaines: map<Nom, DnsServer.Ipv4>, id: uint16, domaine: Nom)
    requires domaine in domaines && NomValide(domaine)
    requires 30 + 2 * |NomEncode(domaine)| <= TailleTampon
    ensures DnsServer.Reponse(domaines, MessageToBytes(Requete(id, domaine))).Some?
    ensures Resultat(id, Recu(DnsServer.Reponse(domaines, MessageToBytes(Requete(id, domaine))).value))
            == Success(Some(Quad(domaines[domaine])))
  {
    var requete := Requete(id, domaine);
    var reponse := DnsServer.ReponseA(domaines, requete);
    var octets := MessageToBytes(reponse);
    var a := DnsServer.Enregistrement(domaines, DnsQuestion(domaine, DnsTypeA, ClasseIn));
    assert DnsServer.Reponse(domaines, MessageToBytes(requete)) == Some(octets) by {
      RequeteLue(id, domaine);
    }
    assert Resultat(id, Recu(octets)) == Success(Some(Quad(domaines[domaine]))) by {
      ReponseConnue(domaines, id, domaine);
      ResultatRecu(id, octets, reponse);
      LireSeule(id, reponse, a);
    }
  }

  /** A datagram that fits in the buffer and parses gives what `Lire` makes of it. */
  lemma ResultatRecu(id: uint16, datagramme: seq<uint8>, reponse: DnsMessage)
    requires |datagramme| <= TailleTampon && MessageFromBytes(datagramme) == Success(reponse)
    ensures Resultat(id, Recu(datagramme)) == Success(Lire(id, reponse))
  {
    assert Tampon(datagramme) == datagramme;
  }

  /** A response to the query with code 0 and one A record gives that record's address. */
  lemma LireSeule(id: uint16, reponse: DnsMessage, a: DnsAnswer)
    requires reponse.header.id == id && Rcode(reponse.header.flags) == 0
    requires reponse.answers == [a] && Ipv4(a)
    ensures Lire(id, reponse) == Some(Quad(a.rdata))
  {
    assert PremiereIpv4(reponse.answers) == Some(a);
  }

  /** What `session_interactive` does with one line typed at the prompt. */
  datatype ChoixSession = Sauter | Quitter | Resoudre(domaine: string)

  /**
   * One line of `session_interactive`: it is trimmed; a blank line is
   * skipped, `quit` or `exit` in any ASCII case ends the session, and any
   * other line is the name handed to `resoudre_domaine`.
   */
  function ChoixLigne(ligne: string): ChoixSession
  {
    var domaine := Text.Trim(ligne);
    if domaine == [] then Sauter
    else if Text.EqIgnoreAsciiCase(domaine, "quit") || Text.EqIgnoreAsciiCase(domaine, "exit") then Quitter
    else Resoudre(domaine)
  }

  /**
   * A line is skipped exactly when it is all whitespace; it ends the
   * session exactly when, trimmed, it is `quit` or `exit` in any ASCII case;
   * otherwise the name resolved is the trimmed line, which has no
   * surrounding whitespace and is decided the same way when typed again.
   */
  lemma ChoixLigneSens(ligne: string)
    ensures ChoixLigne(ligne).Sauter? <==> forall i | 0 <= i < |ligne| :: Text.IsWhitespace(ligne[i])
    ensures ChoixLigne(ligne).Quitter? <==>
      Text.EqIgnoreAsciiCase(Text.Trim(ligne), "quit") || Text.EqIgnoreAsciiCase(Text.Trim(ligne), "exit")
    ensures ChoixLigne(ligne).Resoudre? ==>
      var d := ChoixLigne(ligne).domaine;
      d == Text.Trim(ligne) && d != [] && !Text.IsWhitespace(d[0]) && !Text.IsWhitespace(d[|d| - 1])
      && ChoixLigne(d) == ChoixLigne(ligne)
  {
    Text.TrimEmpty(ligne);
    var d := Text.Trim(ligne);
    if d != [] {
      assert !Text.EqIgnoreAsciiCase([], "quit");
      var s := Text.TrimStart(ligne);
      assert d[0] == s[0];
      Text.TrimNoop(d);
    } else {
      assert Text.LowerAscii(d) == [];
    }
  }
}
