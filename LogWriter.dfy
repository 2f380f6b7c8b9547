/**
 * The log writer's two line formats for one timestamped entry: the
 * technical `.log` line, which the log reader parses back, and the readable
 * `.txt` line with its demonstration date.
 */
module LogWriter {
  import opened Wrappers
  import Text

  /** One entry of a frame: seconds since the epoch, a level, a message and optional data. */
  datatype EntreeDonnee = EntreeDonnee(
    timestamp: nat,
    niveau: string,
    message: string,
    donnees: Option<string>)

  /** The fixed day every readable date shows. */
  const Jour: string := "2025-07-21 "

  const SeparateurNiveau: string := " - "
  const SeparateurDonnees: string := " | Data: "
  const SeparateurDonneesLisible: string := " - Donn\U{00E9}es: "

  predicate SurUneLigne(s: string)
  {
    '\n' !in s
  }

  /** No field of the entry holds a line break. */
  predicate ChampsSurUneLigne(e: EntreeDonnee)
  {
    SurUneLigne(e.niveau) && SurUneLigne(e.message) && (e.donnees.Some? ==> SurUneLigne(e.donnees.value))
  }

  lemma ChiffresSurUneLigne(s: string)
    requires forall i | 0 <= i < |s| :: Text.IsDigit(s[i])
    ensures SurUneLigne(s)
  {
  }

  /**
   * The readable date: the fixed day, then an hour of 18 plus the timestamp
   * modulo 6, and minutes and seconds that are both the timestamp modulo 60,
   * none of them padded.
   */
  function FormatTimestamp(ts: nat): (r: string)
    ensures Text.StartsWith(r, Jour) && SurUneLigne(r)
  {
    var h, m := Text.NatToString(18 + ts % 6), Text.NatToString(ts % 60);
    ChiffresSurUneLigne(h);
    ChiffresSurUneLigne(m);
    Jour + h + ":" + m + ":" + m
  }

  /** The technical line: `[ts] niveau - message`, then ` | Data: d` when there is data. */
  function VersFormatLog(e: EntreeDonnee): (r: string)
    ensures |r| > 0 && r[|r| - 1] == '\n'
    ensures Text.StartsWith(r, "[" + Text.NatToString(e.timestamp) + "]")
    ensures ChampsSurUneLigne(e) ==> SurUneLigne(r[..|r| - 1])
  {
    var ts := Text.NatToString(e.timestamp);
    ChiffresSurUneLigne(ts);
    var ligne := match e.donnees
      case Some(d) => "[" + ts + "] " + e.niveau + SeparateurNiveau + e.message + SeparateurDonnees + d
      case None => "[" + ts + "] " + e.niveau + SeparateurNiveau + e.message;
    assert (ligne + "\n")[..|ligne|] == ligne;
    assert (ligne + "\n")[..|ts| + 2] == "[" + ts + "]";
    ligne + "\n"
  }

  /** The readable line: `date [niveau] message`, then ` - Données: d` when there is data. */
  function VersFormatTxt(e: EntreeDonnee): (r: string)
    ensures |r| > 0 && r[|r| - 1] == '\n'
    ensures Text.StartsWith(r, FormatTimestamp(e.timestamp) + " [" + e.niveau + "] " + e.message)
    ensures ChampsSurUneLigne(e) ==> SurUneLigne(r[..|r| - 1])
  {
    var date := FormatTimestamp(e.timestamp);
    var tete := date + " [" + e.niveau + "] " + e.message;
    var ligne := match e.donnees
      case Some(d) => tete + SeparateurDonneesLisible + d
      case None => tete;
    assert (ligne + "\n")[..|ligne|] == ligne;
    assert (ligne + "\n")[..|tete|] == tete;
    ligne + "\n"
  }

  /**
   * The exact readable line: the date, the bracketed level and the message,
   * then ` - Données: ` and the data when there is data, then one line
   * break. The data are the last thing before that line break.
   */
  lemma LigneLisible(e: EntreeDonnee)
    ensures var tete := FormatTimestamp(e.timestamp) + " [" + e.niveau + "] " + e.message;
      && (e.donnees.None? ==> VersFormatTxt(e) == tete + "\n")
      && (e.donnees.Some? ==> VersFormatTxt(e) == tete + SeparateurDonneesLisible + e.donnees.value + "\n")
      && (e.donnees.Some? ==> Text.EndsWith(VersFormatTxt(e), SeparateurDonneesLisible + e.donnees.value + "\n"))
  {
    var tete := FormatTimestamp(e.timestamp) + " [" + e.niveau + "] " + e.message;
    if e.donnees.Some? {
      var fin := SeparateurDonneesLisible + e.donnees.value + "\n";
      assert VersFormatTxt(e) == tete + fin;
      assert (tete + fin)[|tete + fin| - |fin|..] == fin;
    }
  }

  /**
   * Reading the readable date back: after the fixed day come three numbers
   * separated by ':', the hour between 18 and 23 and then the same
   * minute-and-second value twice.
   */
  lemma HorodatageLu(ts: nat)
    ensures var p := Text.Split(FormatTimestamp(ts)[|Jour|..], ':');
      && |p| == 3 && p[1] == p[2]
      && Text.ParseUnsigned(p[0], 23) == Some(18 + ts % 6) && 18 <= 18 + ts % 6 <= 23
      && Text.ParseUnsigned(p[1], 59) == Some(ts % 60)
  {
    var h, m := Text.NatToString(18 + ts % 6), Text.NatToString(ts % 60);
    var parts := [h, m, m];
    var t := h + ":" + m + ":" + m;
    assert FormatTimestamp(ts) == Jour + t;
    assert (Jour + t)[|Jour|..] == t;
    assert Text.Join(parts[1..], ':') == m + [':'] + m by {
      assert parts[1..][1..] == [m];
    }
    assert t == Text.Join(parts, ':');
    forall k | 0 <= k < 3
      ensures ':' !in parts[k]
    {
      assert forall i | 0 <= i < |parts[k]| :: Text.IsDigit(parts[k][i]);
    }
    Text.SplitJoin(parts, ':');
    Text.ParseNatToString(18 + ts % 6, 23);
    Text.ParseNatToString(ts % 60, 59);
  }

  /** The readable date repeats every minute: it depends on the timestamp modulo 60 only. */
  lemma HorodatagePeriodique(ts: nat)
    ensures FormatTimestamp(ts) == FormatTimestamp(ts % 60)
  {
    var q, r := ts / 60, ts % 60;
    assert ts == 6 * (10 * q) + r;
    ModuloSix(10 * q, r);
    assert r % 60 == r;
    assert 18 + r % 6 == 18 + ts % 6;
  }

  lemma {:induction false} ModuloSix(k: nat, r: nat)
    ensures (6 * k + r) % 6 == r % 6
  {
    if k > 0 {
      ModuloSix(k - 1, r + 6);
    }
  }

  /** Two entries that agree on everything but the timestamp modulo 60 have the same readable line. */
  lemma TxtPeriodique(e: EntreeDonnee)
    ensures VersFormatTxt(e) == VersFormatTxt(e.(timestamp := e.timestamp % 60))
  {
    HorodatagePeriodique(e.timestamp);
  }

  /** The technical line keeps the whole timestamp: entries with different timestamps give different lines. */
  lemma LogDistingueHorodatage(e1: EntreeDonnee, e2: EntreeDonnee)
    requires e1.timestamp != e2.timestamp
    ensures VersFormatLog(e1) != VersFormatLog(e2)
  {
    var t1, t2 := Text.NatToString(e1.timestamp), Text.NatToString(e2.timestamp);
    Text.DigitsValueNatToString(e1.timestamp);
    Text.DigitsValueNatToString(e2.timestamp);
    assert t1 != t2;
    var l1, l2 := VersFormatLog(e1), VersFormatLog(e2);
    if l1 == l2 {
      Crochets(l1, t1);
      Crochets(l2, t2);
      PrefixeChiffres(l1[1..], t1, t2);
      assert false;
    }
  }

  lemma Crochets(l: string, t: string)
    requires Text.StartsWith(l, "[" + t + "]")
    ensures |t| < |l[1..]| && l[1..][..|t| + 1] == t + "]"
  {
    assert l[..|t| + 2] == "[" + t + "]";
    assert l[1..][..|t| + 1] == l[..|t| + 2][1..];
  }

  /** Two digit runs, each followed in `s` by a ']', are the same run. */
  lemma PrefixeChiffres(s: string, a: string, b: string)
    requires |a| < |s| && s[..|a| + 1] == a + "]"
    requires |b| < |s| && s[..|b| + 1] == b + "]"
    requires forall i | 0 <= i < |a| :: Text.IsDigit(a[i])
    requires forall i | 0 <= i < |b| :: Text.IsDigit(b[i])
    ensures a == b
  {
    var n := if |a| < |b| then |a| else |b|;
    assert s[n] == s[..|a| + 1][n] == (a + "]")[n];
    assert s[n] == s[..|b| + 1][n] == (b + "]")[n];
    assert a == s[..|a| + 1][..|a|];
  }
}
