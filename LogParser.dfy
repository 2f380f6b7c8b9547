/**
 * The log reader: parsing one technical line `[ts] NIVEAU - message | Data: d`
 * back into an entry, keeping the lines of a file that parse, filtering by
 * level and counting entries per level.
 */
module LogParser {
  import opened Wrappers
  import Text
  import Sums
  import LogWriter

  /** A parsed entry: every field is the text the line held there. */
  datatype EntreeLog = EntreeLog(
    timestamp: string,
    niveau: string,
    message: string,
    donnees: Option<string>)

  const SeparateurNiveau: string := " - "
  const SeparateurDonnees: string := " | Data: "

  /** The trimmed text after the first ']' of the line. */
  function Reste(ligne: string): string
    requires ']' in ligne
  {
    Text.Trim(ligne[Text.IndexOf(ligne, ']').value + 1..])
  }

  /** What follows the message in a technical line: the data separator without its last space, then the data. */
  function Queue(donnees: Option<string>): string
  {
    match donnees
    case Some(d) => SeparateurDonnees[..8] + d
    case None => []
  }

  /** The level, message and data read from the text after the timestamp. */
  datatype Corps = Corps(niveau: string, message: string, donnees: Option<string>)

  /**
   * The message runs up to the first " | Data: "; the data start 8
   * characters into that separator, so they keep its last space. Without
   * the separator the whole text is the message.
   */
  function LireMessage(suite: string): (r: (string, Option<string>))
    ensures !Text.Contains(r.0, SeparateurDonnees)
    ensures r.1.Some? ==> Text.StartsWith(r.1.value, " ")
    ensures suite == r.0 + Queue(r.1)
  {
    match Text.Find(suite, SeparateurDonnees)
    case Some(q) =>
      SansOccurrenceAvant(suite, SeparateurDonnees, q);
      assert suite[q..q + 9] == SeparateurDonnees;
      assert suite == suite[..q] + (SeparateurDonnees[..8] + suite[q + 8..]);
      assert suite[q + 8..][..1] == [suite[q..q + 9][8]];
      (suite[..q], Some(suite[q + 8..]))
    case None =>
      (suite, None)
  }

  /** The level is the text up to the first " - ", which must be there; the rest is the message and data. */
  function LireCorps(reste: string): (r: Option<Corps>)
    ensures r.None? <==> !Text.Contains(reste, SeparateurNiveau)
    ensures r.Some? ==> !Text.Contains(r.value.niveau, SeparateurNiveau)
    ensures r.Some? ==> !Text.Contains(r.value.message, SeparateurDonnees)
    ensures r.Some? && r.value.donnees.Some? ==> Text.StartsWith(r.value.donnees.value, " ")
    ensures r.Some? ==> reste == r.value.niveau + SeparateurNiveau + r.value.message + Queue(r.value.donnees)
  {
    match Text.Find(reste, SeparateurNiveau)
    case None => None
    case Some(p) =>
      SansOccurrenceAvant(reste, SeparateurNiveau, p);
      var (message, donnees) := LireMessage(reste[p + 3..]);
      Recolle(reste, p, SeparateurNiveau, message + Queue(donnees));
      Some(Corps(reste[..p], message, donnees))
  }

  /** A text is what comes before `p`, the separator found there, and what follows it. */
  lemma Recolle(s: string, p: nat, sep: string, suite: string)
    requires p + |sep| <= |s| && s[p..p + |sep|] == sep && s[p + |sep|..] == suite
    ensures s == s[..p] + sep + suite
  {
    assert s == s[..p] + s[p..p + |sep|] + s[p + |sep|..];
  }

  /**
   * `parse_ligne_log`: the line must start with '[' and contain ']'; the
   * timestamp is what lies between them, and the trimmed rest must hold a
   * level, a message and possibly data.
   */
  function ParseLigneLog(ligne: string): (r: Option<EntreeLog>)
    ensures r.None? <==> !Text.StartsWith(ligne, "[") || ']' !in ligne || !Text.Contains(Reste(ligne), SeparateurNiveau)
    ensures r.Some? ==> Text.StartsWith(ligne, "[" + r.value.timestamp + "]") && ']' !in r.value.timestamp
    ensures r.Some? ==> !Text.Contains(r.value.niveau, SeparateurNiveau) && !Text.Contains(r.value.message, SeparateurDonnees)
    ensures r.Some? && r.value.donnees.Some? ==> Text.StartsWith(r.value.donnees.value, " ")
    ensures r.Some? ==> Reste(ligne) == r.value.niveau + SeparateurNiveau + r.value.message + Queue(r.value.donnees)
  {
    if Text.StartsWith(ligne, "[") && ']' in ligne then
      var i := Text.IndexOf(ligne, ']').value;
      var timestamp := ligne[1..i];
      assert ligne[..i + 1] == "[" + timestamp + "]";
      match LireCorps(Reste(ligne))
      case None => None
      case Some(c) => Some(EntreeLog(timestamp, c.niveau, c.message, c.donnees))
    else None
  }

  /** Before the first occurrence of `pattern`, the text does not contain it. */
  lemma SansOccurrenceAvant(s: string, pattern: string, p: nat)
    requires |pattern| > 0 && p <= |s| && Text.Find(s, pattern) == Some(p)
    ensures !Text.Contains(s[..p], pattern)
  {
    var t := s[..p];
    forall j | 0 <= j
      ensures !Text.OccursAt(t, pattern, j)
    {
      if Text.OccursAt(t, pattern, j) {
        assert t[j..j + |pattern|] == s[j..j + |pattern|];
        assert Text.OccursAt(s, pattern, j);
      }
    }
  }

  // Lines the writer produces, and when they read back.

  /** A level the reader finds again: not empty, not starting with whitespace, and with no " - " even once the separator follows it. */
  predicate NiveauLisible(niveau: string)
  {
    niveau != [] && !Text.IsWhitespace(niveau[0]) && !Text.Contains(niveau + SeparateurNiveau[..2], SeparateurNiveau)
  }

  /** The end of the written line is neither empty nor whitespace, so trimming keeps it. */
  predicate FinLisible(s: string)
  {
    s != [] && !Text.IsWhitespace(s[|s| - 1])
  }

  /** An entry whose technical line reads back: a readable level, and a message that does not hide the data separator. */
  predicate Lisible(e: LogWriter.EntreeDonnee)
  {
    && NiveauLisible(e.niveau)
    && match e.donnees
       case Some(d) => !Text.Contains(e.message + SeparateurDonnees[..8], SeparateurDonnees) && FinLisible(d)
       case None => !Text.Contains(e.message, SeparateurDonnees) && FinLisible(e.message)
  }

  /** The message and data part of the technical line. */
  function Suite(e: LogWriter.EntreeDonnee): string
  {
    e.message + match e.donnees case Some(d) => SeparateurDonnees + d case None => []
  }

  /** The data as the reader returns them: with one leading space. */
  function DonneesLues(donnees: Option<string>): Option<string>
  {
    match donnees
    case Some(d) => Some(" " + d)
    case None => None
  }

  /** The written line without its '\n': the bracketed timestamp, a space, the level, " - ", the message and data. */
  lemma LigneEcrite(e: LogWriter.EntreeDonnee)
    ensures var l := LogWriter.VersFormatLog(e);
      l[..|l| - 1] == "[" + Text.NatToString(e.timestamp) + "]" + (" " + e.niveau + SeparateurNiveau + Suite(e))
  {
    var l := LogWriter.VersFormatLog(e);
    assert l == l[..|l| - 1] + "\n";
  }

  /** A line opening with a bracketed text free of ']' has that text as its timestamp and the trimmed rest as `Reste`. */
  lemma EnTeteLu(ts: string, apres: string)
    requires ']' !in ts
    ensures var ligne := "[" + ts + "]" + apres;
      && Text.StartsWith(ligne, "[") && ']' in ligne
      && Text.IndexOf(ligne, ']') == Some(|ts| + 1)
      && ligne[1..|ts| + 1] == ts && Reste(ligne) == Text.Trim(apres)
  {
    var ligne := "[" + ts + "]" + apres;
    Text.IndexOfAfter("[" + ts, ']', apres);
    assert ligne[|ts| + 2..] == apres;
    assert ligne[1..|ts| + 1] == ts;
  }

  /** Trimming the text after the timestamp drops only the space the writer puts there. */
  lemma ResteEcrit(e: LogWriter.EntreeDonnee)
    requires Lisible(e)
    ensures Text.Trim(" " + e.niveau + SeparateurNiveau + Suite(e)) == e.niveau + SeparateurNiveau + Suite(e)
  {
    var suite := Suite(e);
    var reste := e.niveau + SeparateurNiveau + suite;
    assert (" " + reste)[1..] == reste;
    Text.TrimStartNoop(reste);
    assert " " + e.niveau + SeparateurNiveau + suite == " " + reste;
    assert reste[|reste| - 1] == suite[|suite| - 1];
    assert FinLisible(suite) by {
      match e.donnees
      case Some(d) =>
        assert suite[|suite| - 1] == d[|d| - 1];
      case None =>
    }
    Text.TrimEndNoop(reste);
  }

  /** The level, message and data of a readable entry are found again after the timestamp. */
  lemma CorpsEcrit(e: LogWriter.EntreeDonnee)
    requires Lisible(e)
    ensures LireCorps(e.niveau + SeparateurNiveau + Suite(e)) == Some(Corps(e.niveau, e.message, DonneesLues(e.donnees)))
  {
    var suite := Suite(e);
    var reste := e.niveau + SeparateurNiveau + suite;
    Text.FindAfterPrefix(e.niveau, SeparateurNiveau, suite);
    assert reste[..|e.niveau|] == e.niveau;
    assert reste[|e.niveau| + 3..] == suite;
    MessageEcrit(e);
  }

  /** The message and data of a readable entry are found again after its level. */
  lemma MessageEcrit(e: LogWriter.EntreeDonnee)
    requires Lisible(e)
    ensures LireMessage(Suite(e)) == (e.message, DonneesLues(e.donnees))
  {
    var suite := Suite(e);
    match e.donnees
    case Some(d) =>
      assert suite == e.message + SeparateurDonnees + d;
      Text.FindAfterPrefix(e.message, SeparateurDonnees, d);
      assert suite[..|e.message|] == e.message;
      assert suite[|e.message| + 8..] == " " + d;
    case None =>
      assert suite == e.message;
  }

  /**
   * Writing an entry and reading its line (without the final '\n') back
   * gives its decimal timestamp, its level and its message; the data come
   * back with one leading space.
   */
  lemma EcrireLire(e: LogWriter.EntreeDonnee)
    requires Lisible(e)
    ensures var l := LogWriter.VersFormatLog(e);
      ParseLigneLog(l[..|l| - 1]) == Some(EntreeLog(Text.NatToString(e.timestamp), e.niveau, e.message, DonneesLues(e.donnees)))
  {
    var ts := Text.NatToString(e.timestamp);
    assert ']' !in ts by {
      LogWriter.ChiffresSurUneLigne(ts);
      assert forall i | 0 <= i < |ts| :: Text.IsDigit(ts[i]);
    }
    LigneEcrite(e);
    EnTeteLu(ts, " " + e.niveau + SeparateurNiveau + Suite(e));
    ResteEcrit(e);
    CorpsEcrit(e);
  }

  // The file reader: of the file's lines, the ones that parse, in order.

  /** The values of the present results, in order. */
  function Gardees<T>(rs: seq<Option<T>>): (r: seq<T>)
    ensures |r| <= |rs|
  {
    if rs == [] then []
    else
      var avant := Gardees(rs[..|rs| - 1]);
      match rs[|rs| - 1]
      case Some(x) => avant + [x]
      case None => avant
  }

  lemma {:induction false} GardeesConcat<T>(a: seq<Option<T>>, b: seq<Option<T>>)
    ensures Gardees(a + b) == Gardees(a) + Gardees(b)
    decreases |b|
  {
    if b == [] {
      assert a + b == a;
    } else {
      var b0 := b[..|b| - 1];
      assert (a + b)[..|a + b| - 1] == a + b0;
      GardeesConcat(a, b0);
    }
  }

  lemma {:induction false} GardeesMembres<T>(rs: seq<Option<T>>, x: T)
    ensures x in Gardees(rs) <==> Some(x) in rs
  {
    if rs != [] {
      var avant := rs[..|rs| - 1];
      GardeesMembres(avant, x);
      assert rs == avant + [rs[|rs| - 1]];
    }
  }

  /** The parse of every line, in order. */
  function Analyses(lignes: seq<string>): (r: seq<Option<EntreeLog>>)
    ensures |r| == |lignes| && forall i | 0 <= i < |lignes| :: r[i] == ParseLigneLog(lignes[i])
  {
    seq(|lignes|, i requires 0 <= i < |lignes| => ParseLigneLog(lignes[i]))
  }

  /** The entries of the lines that parse, in the order of the lines. */
  function Lues(lignes: seq<string>): (r: seq<EntreeLog>)
    ensures |r| <= |lignes|
  {
    Gardees(Analyses(lignes))
  }

  /** Reading two runs of lines one after the other gives the two readings one after the other. */
  lemma LuesConcat(a: seq<string>, b: seq<string>)
    ensures Lues(a + b) == Lues(a) + Lues(b)
  {
    assert Analyses(a + b) == Analyses(a) + Analyses(b);
    GardeesConcat(Analyses(a), Analyses(b));
  }

  /** One line yields its entry when it parses, and nothing otherwise. */
  lemma LueSeule(ligne: string)
    ensures Lues([ligne]) == if ParseLigneLog(ligne).Some? then [ParseLigneLog(ligne).value] else []
  {
    var rs := Analyses([ligne]);
    assert rs[..0] == [];
  }

  /** An entry is read exactly when some line parses to it. */
  lemma LuesMembres(lignes: seq<string>, e: EntreeLog)
    ensures e in Lues(lignes) <==> exists i | 0 <= i < |lignes| :: ParseLigneLog(lignes[i]) == Some(e)
  {
    var rs := Analyses(lignes);
    GardeesMembres(rs, e);
    if Some(e) in rs {
      var i :| 0 <= i < |rs| && rs[i] == Some(e);
      assert ParseLigneLog(lignes[i]) == Some(e);
    }
  }

  /** `analyser_fichier_log` over the lines of the file: push the entry of every line that parses. */
  method AnalyserLignes(lignes: seq<string>) returns (entrees: seq<EntreeLog>)
    ensures entrees == Lues(lignes)
  {
    entrees := [];
    for i := 0 to |lignes|
      invariant entrees == Gardees(Analyses(lignes[..i]))
    {
      var rs := Analyses(lignes[..i + 1]);
      assert rs[..i] == Analyses(lignes[..i]);
      match ParseLigneLog(lignes[i])
      case Some(e) =>
        entrees := entrees + [e];
      case None =>
    }
    assert lignes[..|lignes|] == lignes;
  }

  // Filtering by level.

  /** `filtrer_par_niveau`: the entries whose level is `niveau`. */
  function FiltrerParNiveau(entrees: seq<EntreeLog>, niveau: string): (r: seq<EntreeLog>)
    ensures |r| <= |entrees|
    ensures forall k | 0 <= k < |r| :: r[k].niveau == niveau
  {
    if entrees == [] then []
    else
      var avant := FiltrerParNiveau(entrees[..|entrees| - 1], niveau);
      var e := entrees[|entrees| - 1];
      if e.niveau == niveau then avant + [e] else avant
  }

  /** Filtering keeps the order: the filter of two runs is the two filters one after the other. */
  lemma {:induction false} FiltrerConcat(a: seq<EntreeLog>, b: seq<EntreeLog>, niveau: string)
    ensures FiltrerParNiveau(a + b, niveau) == FiltrerParNiveau(a, niveau) + FiltrerParNiveau(b, niveau)
    decreases |b|
  {
    if b == [] {
      assert a + b == a;
    } else {
      var b0 := b[..|b| - 1];
      assert (a + b)[..|a + b| - 1] == a + b0;
      FiltrerConcat(a, b0, niveau);
    }
  }

  /** One entry is kept exactly when its level is the one sought. */
  lemma FiltrerSeule(e: EntreeLog, niveau: string)
    ensures FiltrerParNiveau([e], niveau) == if e.niveau == niveau then [e] else []
  {
    assert [e][..0] == [];
  }

  /** The filter holds exactly the entries of the level sought. */
  lemma {:induction false} FiltrerMembres(entrees: seq<EntreeLog>, niveau: string, e: EntreeLog)
    ensures e in FiltrerParNiveau(entrees, niveau) <==> e in entrees && e.niveau == niveau
  {
    if entrees != [] {
      var avant := entrees[..|entrees| - 1];
      FiltrerMembres(avant, niveau, e);
      assert entrees == avant + [entrees[|entrees| - 1]];
    }
  }

  // Statistics: the count of entries per level, and of entries with data.

  function Incrementer(compteurs: map<string, nat>, niveau: string): map<string, nat>
  {
    compteurs[niveau := (if niveau in compteurs then compteurs[niveau] else 0) + 1]
  }

  /** The per-level counts of `analyser_statistiques_log`. */
  function Compteurs(entrees: seq<EntreeLog>): map<string, nat>
  {
    if entrees == [] then map[]
    else Incrementer(Compteurs(entrees[..|entrees| - 1]), entrees[|entrees| - 1].niveau)
  }

  /** The number of entries that carry data. */
  function AvecDonnees(entrees: seq<EntreeLog>): (n: nat)
    ensures n <= |entrees|
  {
    if entrees == [] then 0
    else AvecDonnees(entrees[..|entrees| - 1]) + if entrees[|entrees| - 1].donnees.Some? then 1 else 0
  }

  /** A level is counted exactly when some entry has it, and its count is the size of its filter. */
  lemma {:induction false} CompteursExacts(entrees: seq<EntreeLog>, niveau: string)
    ensures niveau in Compteurs(entrees) <==> FiltrerParNiveau(entrees, niveau) != []
    ensures niveau in Compteurs(entrees) ==> Compteurs(entrees)[niveau] == |FiltrerParNiveau(entrees, niveau)|
  {
    if entrees != [] {
      CompteursExacts(entrees[..|entrees| - 1], niveau);
    }
  }

  /** The counts over all levels add up to the number of entries. */
  lemma {:induction false} CompteursSomme(entrees: seq<EntreeLog>)
    ensures Sums.SumValues(Compteurs(entrees)) == |entrees|
  {
    if entrees == [] {
      Sums.SumEmpty(Compteurs(entrees));
    } else {
      var m := Compteurs(entrees[..|entrees| - 1]);
      var k := entrees[|entrees| - 1].niveau;
      CompteursSomme(entrees[..|entrees| - 1]);
      assert Compteurs(entrees) == m[k := (if k in m then m[k] else 0) + 1];
      Sums.SumUpdate(m, k, (if k in m then m[k] else 0) + 1);
      Sums.SumRemoveAny(m, k);
    }
  }

  /** One pass over the entries, bumping the level's counter and the data counter. */
  method AnalyserStatistiques(entrees: seq<EntreeLog>) returns (compteurs: map<string, nat>, avecDonnees: nat)
    ensures compteurs == Compteurs(entrees) && avecDonnees == AvecDonnees(entrees)
    ensures Sums.SumValues(compteurs) == |entrees| && avecDonnees <= |entrees|
  {
    compteurs, avecDonnees := map[], 0;
    for i := 0 to |entrees|
      invariant compteurs == Compteurs(entrees[..i]) && avecDonnees == AvecDonnees(entrees[..i])
    {
      assert entrees[..i + 1][..i] == entrees[..i];
      var niveau := entrees[i].niveau;
      compteurs := compteurs[niveau := (if niveau in compteurs then compteurs[niveau] else 0) + 1];
      if entrees[i].donnees.Some? {
        avecDonnees := avecDonnees + 1;
      }
    }
    assert entrees[..|entrees|] == entrees;
    CompteursSomme(entrees);
  }
}
