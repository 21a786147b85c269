/** The operation records the aggregation engine reads, the error kinds of the
    library calls it makes, and the two canonical orderings of app.py. */
module Records {

  datatype Option<+T> = None | Some(value: T)

  /** The exceptions pandas and numpy raise on the paths the model keeps. */
  datatype Error =
    | KeyNotFound(key: string)   // DataFrame.drop of a label that is not in the index
    | DuplicateLabels              // reindex of an axis whose labels repeat
    | EmptyReduction               // min() / max() of a zero-size numpy array

  datatype Result<+T> = Ok(value: T) | Err(error: Error)

  /** One row of the input table, reduced to the columns the engine reads:
      'Fonds', 'themeprojet', 'catbeneficiaire', 'Montant UE programmé', 'Palier'. */
  datatype Operation = Operation(
    fund: string,
    theme: string,
    category: string,
    amount: real,
    tier: string)

  const Feder: string := "FEDER"
  const Fse: string := "FSE"
  const OrdinaryTier: string := "P1"
  const LargeTier: string := "P2"

  /** The theme row excluded from the radial chart. */
  const IndeterminateTheme: string := "Indéterminé"

  /** The beneficiary category excluded from the tier breakdown. */
  const IndeterminateCategory: string := "Bénéficiaires de type indéterminé"

  /** Canonical row order of the cross-tabulation (15 themes). */
  const ThemeOrder: seq<string> := [
    "Indéterminé",
    "Insertion",
    "Emploi",
    "Formation",
    "Subventions de fonctionnement des entreprises<br>(compensation de surcoûts)",
    "Financement des entreprises",
    "Investissements des entreprises",
    "Recherche et innovation",
    "Haut débit et très haut débit",
    "Transport",
    "Logement",
    "Énergie",
    "Environnement",
    "Infrastructures sportives, culturelles et éducatives",
    "Gestion administrative<br>(assistance technique)"
  ]

  /** Canonical column order of the cross-tabulation (14 beneficiary categories). */
  const CategoryOrder: seq<string> := [
    "Associations",
    "Autres établissements publics",
    "Chambres consulaires et groupements d'entreprises",
    "Communes",
    "Départements",
    "Entreprises",
    "Formation continue et enseignement hors supérieur",
    "État",
    "Logement social",
    "Missions locales emploi et insertion",
    "Organismes de soutien à l'entrepreneuriat",
    "Régions",
    "Établissements de recherche et d'enseignement supérieur",
    "Bénéficiaires de type indéterminé"
  ]

  /** No label occurs twice. */
  predicate Distinct<T(==)>(s: seq<T>) {
    forall i, j :: 0 <= i < j < |s| ==> s[i] != s[j]
  }

  /** Sum of the programmed amounts of all records. */
  function TotalAmount(ops: seq<Operation>): real {
    if ops == [] then 0.0 else ops[0].amount + TotalAmount(ops[1..])
  }

  /** Every programmed amount is non-negative (validated upstream). */
  predicate NonNegativeAmounts(ops: seq<Operation>) {
    forall i :: 0 <= i < |ops| ==> ops[i].amount >= 0.0
  }

  /** Adding index `n`, above every index of `s`, adds one element. */
  lemma AddIndex(s: set<int>, n: int, add: bool)
    requires forall k :: k in s ==> k < n
    ensures |if add then s + {n} else s| == |s| + (if add then 1 else 0)
  {
    if add {
      assert n !in s;
    }
  }

  /** No theme is listed twice. */
  lemma ThemeOrderDistinct()
    ensures Distinct(ThemeOrder)
  {
  }

  /** No category is listed twice. */
  lemma CategoryOrderDistinct()
    ensures Distinct(CategoryOrder)
  {
  }

  lemma CanonicalOrderings()
    ensures |ThemeOrder| == 15 && Distinct(ThemeOrder)
    ensures |CategoryOrder| == 14 && Distinct(CategoryOrder)
    ensures ThemeOrder[0] == IndeterminateTheme
    ensures CategoryOrder[13] == IndeterminateCategory
  {
    ThemeOrderDistinct();
    CategoryOrderDistinct();
  }
}
