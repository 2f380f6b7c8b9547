/**
 * The toy DNS responder of tp7: the fixed table of names, and the building
 * of a response to each request received, question by question.
 *
 * Reading and sending datagrams is left to the caller: `TraiterRequete`
 * takes the bytes of one request and gives the bytes to send back, if any.
 */
module DnsServer {
  import opened Wrappers
  import opened Bytes
  import opened Dns
  import Text

  /** An IPv4 address, as the four bytes of an A record. */
  type Ipv4 = s: seq<uint8> | |s| == 4 witness [0, 0, 0, 0]

  /** The names the server knows, and their addresses, as `ServeurDns::new` fills them in. */
  const Table: map<Nom, Ipv4> := map[
    // exemple.com
    [0x65, 0x78, 0x65, 0x6D, 0x70, 0x6C, 0x65, 0x2E, 0x63, 0x6F, 0x6D] := [192, 168, 1, 100],
    // test.local
    [0x74, 0x65, 0x73, 0x74, 0x2E, 0x6C, 0x6F, 0x63, 0x61, 0x6C] := [127, 0, 0, 1],
    // serveur.esgi
    [0x73, 0x65, 0x72, 0x76, 0x65, 0x75, 0x72, 0x2E, 0x65, 0x73, 0x67, 0x69] := [10, 0, 0, 50],
    // www.exemple.com
    [0x77, 0x77, 0x77, 0x2E, 0x65, 0x78, 0x65, 0x6D, 0x70, 0x6C, 0x65, 0x2E, 0x63, 0x6F, 0x6D] := [192, 168, 1, 101]
  ]

  /** The time to live of every answer: five minutes. */
  const Ttl: uint32 := 300

  /** RCODE 3, name error (NXDOMAIN). */
  const CodeNomInconnu: uint16 := 0x0003
  /** RCODE 4, not implemented. */
  const CodeNonImplemente: uint16 := 0x0004

  /** A question the server answers: an A query for a name of the table. */
  predicate Connue(domaines: map<Nom, Ipv4>, q: DnsQuestion)
  {
    q.qtype == DnsTypeA && q.qname in domaines
  }

  /** The answer to a question it knows: the table's address for that name. */
  function Enregistrement(domaines: map<Nom, Ipv4>, q: DnsQuestion): (a: DnsAnswer)
    requires Connue(domaines, q)
    ensures a.name == q.qname && a.rtype == DnsTypeA && a.rclass == ClasseIn && a.ttl == Ttl
    ensures a.rdata == domaines[q.qname] && a.rdlength == 4
  {
    NouvelEnregistrementA(q.qname, domaines[q.qname], Ttl)
  }

  // ---------------------------------------------------------------- one question

  /**
   * The body of the loop over the questions in `traiter_requete`: an answer
   * for a known A query, the NXDOMAIN bits for an unknown name, the
   * not-implemented bits for any other type. `ancount += 1` is on a `u16`.
   */
  function Traiter(domaines: map<Nom, Ipv4>, m: DnsMessage, q: DnsQuestion): DnsMessage
  {
    if q.qtype == DnsTypeA then
      if q.qname in domaines then
        m.(answers := m.answers + [Enregistrement(domaines, q)],
           header := m.header.(ancount := (m.header.ancount + 1) % 0x1_0000))
      else m.(header := m.header.(flags := Ou(m.header.flags, CodeNomInconnu)))
    else m.(header := m.header.(flags := Ou(m.header.flags, CodeNonImplemente)))
  }

  /** The response after the loop has handled the questions `qs`, in order, starting from `m`. */
  function Appliquer(domaines: map<Nom, Ipv4>, m: DnsMessage, qs: seq<DnsQuestion>): DnsMessage
    decreases |qs|
  {
    if qs == [] then m else Traiter(domaines, Appliquer(domaines, m, qs[..|qs| - 1]), qs[|qs| - 1])
  }

  /** The response `traiter_requete` builds for a parsed request. */
  function ReponseA(domaines: map<Nom, Ipv4>, requete: DnsMessage): DnsMessage
  {
    Appliquer(domaines, NouvelleReponse(requete), requete.questions)
  }

  /**
   * `traiter_requete`: a request that does not parse gets no response at all;
   * any other gets the bytes of the response built for it.
   */
  function Reponse(domaines: map<Nom, Ipv4>, donnees: seq<uint8>): Option<seq<uint8>>
  {
    match MessageFromBytes(donnees)
    case Failure(_) => None
    case Success(requete) => Some(MessageToBytes(ReponseA(domaines, requete)))
  }

  /** The loop's step: one more question handled. */
  lemma AppliquerPas(domaines: map<Nom, Ipv4>, m: DnsMessage, qs: seq<DnsQuestion>, i: nat)
    requires i < |qs|
    ensures Appliquer(domaines, m, qs[..i + 1]) == Traiter(domaines, Appliquer(domaines, m, qs[..i]), qs[i])
  {
    assert qs[..i + 1][..i] == qs[..i];
  }

  // ---------------------------------------------------------------- the server

  /** `ServeurDns`: the socket is left to the caller, the table is fixed at creation. */
  class ServeurDns {
    const domaines: map<Nom, Ipv4>

    /** `ServeurDns::new`: the four names of `Table`. */
    constructor ()
      ensures domaines == Table
    {
      domaines := Table;
    }

    /** The loop over the questions, changing the response in place. */
    method TraiterQuestions(requete: DnsMessage) returns (reponse: DnsMessage)
      ensures reponse == ReponseA(domaines, requete)
    {
      var qs := requete.questions;
      reponse := NouvelleReponse(requete);
      for i := 0 to |qs|
        invariant reponse == Appliquer(domaines, NouvelleReponse(requete), qs[..i])
      {
        var question := qs[i];
        AppliquerPas(domaines, NouvelleReponse(requete), qs, i);
        if question.qtype == DnsTypeA {
          if question.qname in domaines {
            var answer := NouvelEnregistrementA(question.qname, domaines[question.qname], Ttl);
            reponse := reponse.(answers := reponse.answers + [answer]);
            reponse := reponse.(header := reponse.header.(ancount := (reponse.header.ancount + 1) % 0x1_0000));
          } else {
            reponse := reponse.(header := reponse.header.(flags := Ou(reponse.header.flags, CodeNomInconnu)));
          }
        } else {
          reponse := reponse.(header := reponse.header.(flags := Ou(reponse.header.flags, CodeNonImplemente)));
        }
      }
      assert qs[..|qs|] == qs;
    }

    /** `traiter_requete` on the bytes of one datagram: what it sends back, if anything. */
    method TraiterRequete(donnees: seq<uint8>) returns (envoi: Option<seq<uint8>>)
      ensures envoi == Reponse(domaines, donnees)
    {
      var requete := FromBytes(donnees);
      if requete.Failure? {
        return None;
      }
      var reponse := TraiterQuestions(requete.value);
      var octets := ToBytes(reponse);
      return Some(octets);
    }
  }

  // ---------------------------------------------------------------- reference definitions

  /** The questions the server answers, in request order. */
  function Connues(domaines: map<Nom, Ipv4>, qs: seq<DnsQuestion>): (r: seq<DnsQuestion>)
    ensures |r| <= |qs|
    ensures forall k | 0 <= k < |r| :: Connue(domaines, r[k])
  {
    if qs == [] then []
    else (if Connue(domaines, qs[0]) then [qs[0]] else []) + Connues(domaines, qs[1..])
  }

  /** The answers to questions the server knows, one each, in the same order. */
  function Enregistrements(domaines: map<Nom, Ipv4>, qs: seq<DnsQuestion>): (r: seq<DnsAnswer>)
    requires forall k | 0 <= k < |qs| :: Connue(domaines, qs[k])
    ensures |r| == |qs|
    ensures forall k | 0 <= k < |r| :: r[k] == Enregistrement(domaines, qs[k])
  {
    if qs == [] then [] else [Enregistrement(domaines, qs[0])] + Enregistrements(domaines, qs[1..])
  }

  /** Some question is an A query for a name missing from the table. */
  predicate InconnueA(domaines: map<Nom, Ipv4>, qs: seq<DnsQuestion>)
  {
    exists k | 0 <= k < |qs| :: qs[k].qtype == DnsTypeA && qs[k].qname !in domaines
  }

  /** Some question is of a type other than A. */
  predicate AutreType(qs: seq<DnsQuestion>)
  {
    exists k | 0 <= k < |qs| :: qs[k].qtype != DnsTypeA
  }

  /**
   * The RCODE bits the questions `qs` OR into the flags: 3 for an unknown A
   * name, 4 for another type; the two share no bit, so both give 7.
   */
  function Code(domaines: map<Nom, Ipv4>, qs: seq<DnsQuestion>): uint16
  {
    (if InconnueA(domaines, qs) then CodeNomInconnu else 0) + (if AutreType(qs) then CodeNonImplemente else 0)
  }

  /** The flags of `new_response`: QR and RD. */
  const DrapeauxReponse: uint16 := 0x8100

  // ---------------------------------------------------------------- bits

  lemma DrapeauxNouvelleReponse(requete: DnsMessage)
    ensures NouvelleReponse(requete).header.flags == DrapeauxReponse
  {
    assert Ou(Ou(0, BitQr), BitRd) == 0x8100;
  }

  /** ORing 3 or 4 into the response flags with RCODE `c`. */
  lemma OuPas(c: uint16, x: uint16)
    requires c == 0 || c == 3 || c == 4 || c == 7
    requires x == CodeNomInconnu || x == CodeNonImplemente
    ensures Ou(DrapeauxReponse + c, x)
            == DrapeauxReponse + if x == CodeNomInconnu then (if c == 0 || c == 3 then 3 else 7)
                                 else (if c == 0 || c == 4 then 4 else 7)
  {
    if c == 0 {
      assert Ou(0x8100, 3) == 0x8103 && Ou(0x8100, 4) == 0x8104;
    } else if c == 3 {
      assert Ou(0x8103, 3) == 0x8103 && Ou(0x8103, 4) == 0x8107;
    } else if c == 4 {
      assert Ou(0x8104, 3) == 0x8107 && Ou(0x8104, 4) == 0x8104;
    } else {
      assert Ou(0x8107, 3) == 0x8107 && Ou(0x8107, 4) == 0x8107;
    }
  }

  /** The response flags with RCODE `c`: QR and RD set, RCODE `c`. */
  lemma DrapeauxLus(c: uint16)
    requires c == 0 || c == 3 || c == 4 || c == 7
    ensures Rcode(DrapeauxReponse + c) == c
    ensures Et(DrapeauxReponse + c, BitQr) != 0 && Et(DrapeauxReponse + c, BitRd) != 0
  {
    if c == 0 {
      assert Et(0x8100, 15) == 0 && Et(0x8100, 0x8000) != 0 && Et(0x8100, 0x0100) != 0;
    } else if c == 3 {
      assert Et(0x8103, 15) == 3 && Et(0x8103, 0x8000) != 0 && Et(0x8103, 0x0100) != 0;
    } else if c == 4 {
      assert Et(0x8104, 15) == 4 && Et(0x8104, 0x8000) != 0 && Et(0x8104, 0x0100) != 0;
    } else {
      assert Et(0x8107, 15) == 7 && Et(0x8107, 0x8000) != 0 && Et(0x8107, 0x0100) != 0;
    }
  }

  // ---------------------------------------------------------------- properties of the loop

  lemma ConnuesFin(domaines: map<Nom, Ipv4>, qs: seq<DnsQuestion>, q: DnsQuestion)
    ensures Connues(domaines, qs + [q]) == Connues(domaines, qs) + (if Connue(domaines, q) then [q] else [])
  {
    if qs == [] {
      assert [q][1..] == [];
    } else {
      assert (qs + [q])[1..] == qs[1..] + [q];
      ConnuesFin(domaines, qs[1..], q);
    }
  }

  lemma EnregistrementsConcat(domaines: map<Nom, Ipv4>, a: seq<DnsQuestion>, b: seq<DnsQuestion>)
    requires forall k | 0 <= k < |a| :: Connue(domaines, a[k])
    requires forall k | 0 <= k < |b| :: Connue(domaines, b[k])
    ensures Enregistrements(domaines, a + b) == Enregistrements(domaines, a) + Enregistrements(domaines, b)
  {
  }

  lemma CodeFin(domaines: map<Nom, Ipv4>, qs: seq<DnsQuestion>, q: DnsQuestion)
    ensures InconnueA(domaines, qs + [q]) <==> InconnueA(domaines, qs) || (q.qtype == DnsTypeA && q.qname !in domaines)
    ensures AutreType(qs + [q]) <==> AutreType(qs) || q.qtype != DnsTypeA
  {
    var s := qs + [q];
    assert s[|qs|] == q;
    assert forall k | 0 <= k < |qs| :: s[k] == qs[k];
  }

  /** The effect of one question on the answers, `ancount` and the rest of the response. */
  lemma TraiterEffet(domaines: map<Nom, Ipv4>, m: DnsMessage, q: DnsQuestion)
    ensures Traiter(domaines, m, q).answers
            == m.answers + if Connue(domaines, q) then [Enregistrement(domaines, q)] else []
    ensures Traiter(domaines, m, q).header.ancount == (m.header.ancount + if Connue(domaines, q) then 1 else 0) % 0x1_0000
    ensures Traiter(domaines, m, q).header.(flags := 0, ancount := 0) == m.header.(flags := 0, ancount := 0)
    ensures Traiter(domaines, m, q).questions == m.questions
  {
  }

  /**
   * Handling the questions `qs` appends the answers to the known ones in
   * order and changes nothing else but the flags and `ancount`.
   */
  lemma {:induction false} AppliquerEffet(domaines: map<Nom, Ipv4>, m: DnsMessage, qs: seq<DnsQuestion>)
    ensures Appliquer(domaines, m, qs).answers == m.answers + Enregistrements(domaines, Connues(domaines, qs))
    ensures Appliquer(domaines, m, qs).header.(flags := 0, ancount := 0) == m.header.(flags := 0, ancount := 0)
    ensures Appliquer(domaines, m, qs).questions == m.questions
    decreases |qs|
  {
    if qs != [] {
      var p := qs[..|qs| - 1];
      var q := qs[|qs| - 1];
      assert p + [q] == qs;
      var r := Appliquer(domaines, m, p);
      assert Appliquer(domaines, m, qs) == Traiter(domaines, r, q);
      AppliquerEffet(domaines, m, p);
      TraiterEffet(domaines, r, q);
      ConnuesFin(domaines, p, q);
      var t := if Connue(domaines, q) then [q] else [];
      var e := Enregistrements(domaines, Connues(domaines, p));
      var f := Enregistrements(domaines, t);
      EnregistrementsConcat(domaines, Connues(domaines, p), t);
      assert f == if Connue(domaines, q) then [Enregistrement(domaines, q)] else [];
      Text.Concat3(m.answers, e, f);
    }
  }

  /** While it does not wrap, `ancount` grows by one per known question. */
  lemma {:induction false} AppliquerAncount(domaines: map<Nom, Ipv4>, m: DnsMessage, qs: seq<DnsQuestion>)
    requires m.header.ancount + |qs| < 0x1_0000
    ensures Appliquer(domaines, m, qs).header.ancount == m.header.ancount + |Connues(domaines, qs)|
    decreases |qs|
  {
    if qs != [] {
      var p := qs[..|qs| - 1];
      var q := qs[|qs| - 1];
      assert p + [q] == qs;
      AppliquerAncount(domaines, m, p);
      TraiterEffet(domaines, Appliquer(domaines, m, p), q);
      ConnuesFin(domaines, p, q);
    }
  }

  /** Starting from the flags of `new_response`, handling `qs` ORs in their RCODE bits. */
  lemma {:induction false} AppliquerDrapeaux(domaines: map<Nom, Ipv4>, m: DnsMessage, qs: seq<DnsQuestion>)
    requires m.header.flags == DrapeauxReponse
    ensures Appliquer(domaines, m, qs).header.flags == DrapeauxReponse + Code(domaines, qs)
    decreases |qs|
  {
    if qs == [] {
      assert !InconnueA(domaines, qs) && !AutreType(qs);
    } else {
      var p := qs[..|qs| - 1];
      var q := qs[|qs| - 1];
      assert p + [q] == qs;
      AppliquerDrapeaux(domaines, m, p);
      CodeFin(domaines, p, q);
      if q.qtype == DnsTypeA && q.qname !in domaines {
        OuPas(Code(domaines, p), CodeNomInconnu);
      } else if q.qtype != DnsTypeA {
        OuPas(Code(domaines, p), CodeNonImplemente);
      }
    }
  }

  /** The response keeps the request's id, question count and questions, with QR and RD set. */
  lemma ReponseEnTete(domaines: map<Nom, Ipv4>, requete: DnsMessage)
    ensures ReponseA(domaines, requete).header.id == requete.header.id
    ensures ReponseA(domaines, requete).header.qdcount == requete.header.qdcount
    ensures ReponseA(domaines, requete).questions == requete.questions
    ensures Et(ReponseA(domaines, requete).header.flags, BitQr) != 0
    ensures Et(ReponseA(domaines, requete).header.flags, BitRd) != 0
  {
    var m := NouvelleReponse(requete);
    AppliquerEffet(domaines, m, requete.questions);
    DrapeauxNouvelleReponse(requete);
    AppliquerDrapeaux(domaines, m, requete.questions);
    DrapeauxLus(Code(domaines, requete.questions));
  }

  /**
   * The RCODE of the response: 3 for an unknown A name, 4 for a type other
   * than A, 7 for both; 0 exactly when every question is a known A query.
   */
  lemma ReponseRcode(domaines: map<Nom, Ipv4>, requete: DnsMessage)
    ensures Rcode(ReponseA(domaines, requete).header.flags) == Code(domaines, requete.questions)
    ensures Rcode(ReponseA(domaines, requete).header.flags) == 0
            <==> forall k | 0 <= k < |requete.questions| :: Connue(domaines, requete.questions[k])
  {
    var qs := requete.questions;
    DrapeauxNouvelleReponse(requete);
    AppliquerDrapeaux(domaines, NouvelleReponse(requete), qs);
    DrapeauxLus(Code(domaines, qs));
    if forall k | 0 <= k < |qs| :: Connue(domaines, qs[k]) {
      assert !InconnueA(domaines, qs) && !AutreType(qs);
    } else {
      var k :| 0 <= k < |qs| && !Connue(domaines, qs[k]);
      assert InconnueA(domaines, qs) || AutreType(qs);
    }
  }

  /** A request with an unknown A name and a query of another type gets RCODE 7. */
  lemma RequeteMixte(domaines: map<Nom, Ipv4>, requete: DnsMessage, i: nat, j: nat)
    requires i < |requete.questions| && j < |requete.questions|
    requires requete.questions[i].qtype == DnsTypeA && requete.questions[i].qname !in domaines
    requires requete.questions[j].qtype != DnsTypeA
    ensures Rcode(ReponseA(domaines, requete).header.flags) == 7
  {
    ReponseRcode(domaines, requete);
    assert InconnueA(domaines, requete.questions) && AutreType(requete.questions);
  }

  /**
   * The answers of the response are the table's A records for the known
   * questions, in question order, and `ancount` counts them.
   */
  lemma ReponseReponses(domaines: map<Nom, Ipv4>, requete: DnsMessage)
    requires |requete.questions| < 0x1_0000
    ensures ReponseA(domaines, requete).answers == Enregistrements(domaines, Connues(domaines, requete.questions))
    ensures ReponseA(domaines, requete).header.ancount == |ReponseA(domaines, requete).answers|
  {
    AppliquerEffet(domaines, NouvelleReponse(requete), requete.questions);
    AppliquerAncount(domaines, NouvelleReponse(requete), requete.questions);
  }

  /** Every known question of the request has its answer in the response. */
  lemma {:induction false} ConnueRepondue(domaines: map<Nom, Ipv4>, qs: seq<DnsQuestion>, i: nat)
    requires i < |qs| && Connue(domaines, qs[i])
    ensures Enregistrement(domaines, qs[i]) in Enregistrements(domaines, Connues(domaines, qs))
  {
    var t := if Connue(domaines, qs[0]) then [qs[0]] else [];
    assert Connues(domaines, qs) == t + Connues(domaines, qs[1..]);
    EnregistrementsConcat(domaines, t, Connues(domaines, qs[1..]));
    if i > 0 {
      ConnueRepondue(domaines, qs[1..], i - 1);
      assert qs[1..][i - 1] == qs[i];
    } else {
      assert Enregistrements(domaines, t)[0] == Enregistrement(domaines, qs[0]);
    }
  }

  /** Every answer in the response answers a known question of the request. */
  lemma {:induction false} RepondueConnue(domaines: map<Nom, Ipv4>, qs: seq<DnsQuestion>, a: DnsAnswer)
    requires a in Enregistrements(domaines, Connues(domaines, qs))
    ensures exists k | 0 <= k < |qs| :: Connue(domaines, qs[k]) && a == Enregistrement(domaines, qs[k])
  {
    var t := if Connue(domaines, qs[0]) then [qs[0]] else [];
    assert Connues(domaines, qs) == t + Connues(domaines, qs[1..]);
    EnregistrementsConcat(domaines, t, Connues(domaines, qs[1..]));
    if a in Enregistrements(domaines, Connues(domaines, qs[1..])) {
      RepondueConnue(domaines, qs[1..], a);
      var k :| 0 <= k < |qs[1..]| && Connue(domaines, qs[1..][k]) && a == Enregistrement(domaines, qs[1..][k]);
      assert qs[k + 1] == qs[1..][k];
    } else {
      assert a == Enregistrement(domaines, qs[0]);
    }
  }

  /** A datagram gets no response exactly when it does not parse as a DNS message. */
  lemma SansReponse(domaines: map<Nom, Ipv4>, donnees: seq<uint8>)
    ensures Reponse(domaines, donnees).None? <==> MessageFromBytes(donnees).Failure?
  {
  }

  /**
   * A parsed request has as many questions as its QDCOUNT, so the `ancount`
   * of its response counts its answers.
   */
  lemma ReponseDeRequete(domaines: map<Nom, Ipv4>, donnees: seq<uint8>)
    requires MessageFromBytes(donnees).Success?
    ensures ReponseA(domaines, MessageFromBytes(donnees).value).header.ancount
            == |ReponseA(domaines, MessageFromBytes(donnees).value).answers|
  {
    ReponseReponses(domaines, MessageFromBytes(donnees).value);
  }
}
