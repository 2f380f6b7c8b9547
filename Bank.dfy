/**
 * The bank account exercise: an account whose withdrawal and deposit guard
 * against non-positive amounts and overdrafts, renaming into a new account,
 * and the menu's choice of an account by its displayed number.
 */
module Bank {
  import opened Wrappers
  import Text

  /** The largest `usize`, the type the account number is parsed into. */
  const MaxUsize: nat := 0xFFFF_FFFF_FFFF_FFFF

  /** The balance after a withdrawal: it is taken only when positive and covered by the balance. */
  function Retire(solde: real, montant: real): (r: real)
    ensures r != solde <==> 0.0 < montant <= solde
    ensures r != solde ==> r == solde - montant
    ensures solde >= 0.0 ==> r >= 0.0
  {
    if montant <= 0.0 then solde
    else if solde >= montant then solde - montant
    else solde
  }

  /** The balance after a deposit: it is added only when positive. */
  function Depose(solde: real, montant: real): (r: real)
    ensures r != solde <==> montant > 0.0
    ensures r != solde ==> r == solde + montant
    ensures r >= solde
  {
    if montant <= 0.0 then solde else solde + montant
  }

  /** A deposit followed by the withdrawal of the same amount gives the balance back. */
  lemma DepotPuisRetrait(solde: real, montant: real)
    requires solde >= 0.0
    ensures Retire(Depose(solde, montant), montant) == solde
  {
  }

  /** A withdrawal that goes through can always be undone by a deposit of the same amount. */
  lemma RetraitPuisDepot(solde: real, montant: real)
    ensures Retire(solde, montant) != solde ==> Depose(Retire(solde, montant), montant) == solde
  {
  }

  class CompteBancaire {
    var nom: string
    var solde: real

    constructor(nom: string, solde: real)
      ensures this.nom == nom && this.solde == solde
    {
      this.nom := nom;
      this.solde := solde;
    }

    /** `retrait`: refuses a non-positive amount and an amount above the balance. */
    method Retrait(montant: real)
      modifies this
      ensures nom == old(nom) && solde == Retire(old(solde), montant)
    {
      if montant <= 0.0 {
      } else if solde >= montant {
        solde := solde - montant;
      } else {
      }
    }

    /** `depot`: refuses a non-positive amount. */
    method Depot(montant: real)
      modifies this
      ensures nom == old(nom) && solde == Depose(old(solde), montant)
    {
      if montant <= 0.0 {
      } else {
        solde := solde + montant;
      }
    }

    /** `renommer`: a new account with the new name and this account's balance. */
    method Renommer(nouveauNom: string) returns (c: CompteBancaire)
      ensures fresh(c) && c.nom == nouveauNom && c.solde == solde
    {
      c := new CompteBancaire(nouveauNom, solde);
    }
  }

  /** The accounts the program opens with. */
  method ComptesInitiaux() returns (comptes: seq<CompteBancaire>)
    ensures |comptes| == 2 && fresh(comptes[0]) && fresh(comptes[1]) && comptes[0] != comptes[1]
    ensures comptes[0].nom == "Compte Courant" && comptes[0].solde == 1250.75
    ensures comptes[1].nom == "Livret A" && comptes[1].solde == 5400.00
  {
    var courant := new CompteBancaire("Compte Courant", 1250.75);
    var livret := new CompteBancaire("Livret A", 5400.00);
    comptes := [courant, livret];
  }

  /**
   * The account the user picks: the trimmed line must parse as a `usize`
   * between 1 and the number of accounts, and names the account one below it.
   */
  function ChoixCompte(saisie: string, nombre: nat): (r: Option<nat>)
    ensures r.Some? ==> r.value < nombre && Text.ParseUnsigned(Text.Trim(saisie), MaxUsize) == Some(r.value + 1)
    ensures r.None? ==> match Text.ParseUnsigned(Text.Trim(saisie), MaxUsize)
      case Some(n) => n == 0 || n > nombre
      case None => true
  {
    match Text.ParseUnsigned(Text.Trim(saisie), MaxUsize)
    case Some(n) => if 0 < n <= nombre then Some(n - 1) else None
    case None => None
  }

  /** Typing back a number the menu could show, with its line break, picks account `n - 1` exactly when `1 <= n <= nombre`. */
  lemma ChoixNumero(n: nat, nombre: nat)
    requires n <= MaxUsize
    ensures ChoixCompte(Text.NatToString(n) + "\n", nombre) == if 1 <= n <= nombre then Some(n - 1) else None
  {
    var t := Text.NatToString(n);
    LigneChiffres(t);
    Text.ParseNatToString(n, MaxUsize);
  }

  /** A line of digits read with its line break trims to the digits. */
  lemma LigneChiffres(t: string)
    requires t != [] && forall i | 0 <= i < |t| :: Text.IsDigit(t[i])
    ensures Text.Trim(t + "\n") == t
  {
    assert !Text.IsWhitespace(t[0]) && !Text.IsWhitespace(t[|t| - 1]);
    Text.TrimStartNoop(t + "\n");
    assert (t + "\n")[..|t + "\n"| - 1] == t;
    Text.TrimEndNoop(t);
  }

  /** No account is listed twice: the vector owns each account. */
  predicate Distincts(comptes: seq<CompteBancaire>)
  {
    forall a, b | 0 <= a < b < |comptes| :: comptes[a] != comptes[b]
  }

  /**
   * Menu option "Retrait": an invalid choice, or an amount that does not
   * parse (`montant` is `None`, "Montant invalide."), changes nothing;
   * otherwise the chosen account withdraws the amount.
   */
  method MenuRetrait(comptes: seq<CompteBancaire>, saisieCompte: string, montant: Option<real>) returns (choix: Option<nat>)
    requires Distincts(comptes)
    modifies comptes
    ensures choix == ChoixCompte(saisieCompte, |comptes|)
    ensures forall k | 0 <= k < |comptes| :: comptes[k].nom == old(comptes[k].nom)
    ensures forall k | 0 <= k < |comptes| ::
      comptes[k].solde == (if choix == Some(k) && montant.Some? then Retire(old(comptes[k].solde), montant.value) else old(comptes[k].solde))
    ensures montant.None? ==> forall k | 0 <= k < |comptes| :: comptes[k].solde == old(comptes[k].solde)
  {
    choix := ChoixCompte(saisieCompte, |comptes|);
    if choix.Some? && montant.Some? {
      comptes[choix.value].Retrait(montant.value);
    }
  }

  /**
   * Menu option "Dépôt": an invalid choice, or an amount that does not
   * parse (`montant` is `None`, "Montant invalide."), changes nothing;
   * otherwise the chosen account deposits the amount.
   */
  method MenuDepot(comptes: seq<CompteBancaire>, saisieCompte: string, montant: Option<real>) returns (choix: Option<nat>)
    requires Distincts(comptes)
    modifies comptes
    ensures choix == ChoixCompte(saisieCompte, |comptes|)
    ensures forall k | 0 <= k < |comptes| :: comptes[k].nom == old(comptes[k].nom)
    ensures forall k | 0 <= k < |comptes| ::
      comptes[k].solde == (if choix == Some(k) && montant.Some? then Depose(old(comptes[k].solde), montant.value) else old(comptes[k].solde))
    ensures montant.None? ==> forall k | 0 <= k < |comptes| :: comptes[k].solde == old(comptes[k].solde)
  {
    choix := ChoixCompte(saisieCompte, |comptes|);
    if choix.Some? && montant.Some? {
      comptes[choix.value].Depot(montant.value);
    }
  }

  /**
   * Menu option "Renommer compte": an invalid choice or a name that trims to
   * nothing leaves the accounts as they are; otherwise the chosen account is
   * replaced by a renamed copy with the same balance.
   */
  method MenuRenommer(comptes: seq<CompteBancaire>, saisieCompte: string, saisieNom: string) returns (apres: seq<CompteBancaire>)
    ensures |apres| == |comptes|
    ensures ChoixCompte(saisieCompte, |comptes|).None? || Text.Trim(saisieNom) == [] ==> apres == comptes
    ensures ChoixCompte(saisieCompte, |comptes|).Some? && Text.Trim(saisieNom) != [] ==>
      var k := ChoixCompte(saisieCompte, |comptes|).value;
      && fresh(apres[k]) && apres[k].nom == Text.Trim(saisieNom) && apres[k].solde == comptes[k].solde
      && forall j | 0 <= j < |comptes| && j != k :: apres[j] == comptes[j]
  {
    apres := comptes;
    var choix := ChoixCompte(saisieCompte, |comptes|);
    if choix.None? {
      return;
    }
    var nom := Text.Trim(saisieNom);
    if nom == [] {
      return;
    }
    var nouveau := comptes[choix.value].Renommer(nom);
    apres := comptes[choix.value := nouveau];
  }
}
