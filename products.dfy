/** The product records the catalog returns, and the Nutri-Score ordinal that
    both utils/data.py and utils/chatbot.py compare them by. */
module Products {
  import opened Wrappers
  import opened Text

  /** One key of a decoded JSON object: missing, present with `null`, or
      present with a value. `dict.get(key, default)` tells the first two
      apart; truthiness tests do not. */
  datatype Field<T> = Absent | Null | Val(v: T)

  /** `nutriments`: per-100 g values by key ("sugars_100g", "salt_100g", ...);
      `None` is a key present with `null`. */
  type Nutriments = map<string, Option<real>>

  /** A product record, with the keys the core reads. */
  datatype Product = Product(
    code: Field<string>,
    id: Field<string>,
    productName: Field<string>,
    brands: Field<string>,
    nutriscoreGrade: Field<string>,
    novaGroup: Field<int>,
    labels: Field<string>,
    ingredientsText: Field<string>,
    categories: Field<string>,
    categoriesTags: Field<seq<string>>,
    nutriments: Nutriments)

  /** Python truthiness of a string field: present and non-empty. */
  predicate Truthy(f: Field<string>) {
    f.Val? && f.v != ""
  }

  /** `product.get(key, "") or ""`. */
  function OrEmpty(f: Field<string>): (r: string)
    ensures Truthy(f) ==> r == f.v
    ensures !Truthy(f) ==> r == ""
  {
    if Truthy(f) then f.v else ""
  }

  /** What `f"{product.get(key, default)}"` prints: the default for a missing
      key, "None" for `null`. */
  function Display(f: Field<string>, default: string): string {
    match f
    case Absent => default
    case Null => "None"
    case Val(s) => s
  }

  /** The identity used to exclude the source product from its alternatives:
      `product.get("code") or product.get("_id")`, where `None` is Python's
      `None`. */
  function Identity(p: Product): (r: Option<string>)
    ensures Truthy(p.code) ==> r == Some(p.code.v)
    ensures !Truthy(p.code) ==> r == (if p.id.Val? then Some(p.id.v) else None)
  {
    if Truthy(p.code) then Some(p.code.v)
    else match p.id
      case Val(s) => Some(s)
      case _ => None
  }

  /** The grade letter for ordinals 1 to 5. */
  function GradeLetter(k: int): char
    requires 1 <= k <= 5
  {
    ('A' as int + k - 1) as char
  }

  /** `{"A": 1, "B": 2, "C": 3, "D": 4, "E": 5}.get(g, 99)`. */
  function GradeOrdinal(g: string): int {
    if |g| == 1 && 'A' <= g[0] <= 'E' then g[0] as int - 'A' as int + 1 else 99
  }

  /** The five entries of the table, and the default for every other key. */
  lemma GradeOrdinalTable(g: string)
    ensures GradeOrdinal("A") == 1 && GradeOrdinal("B") == 2 && GradeOrdinal("C") == 3
    ensures GradeOrdinal("D") == 4 && GradeOrdinal("E") == 5
    ensures g !in {"A", "B", "C", "D", "E"} ==> GradeOrdinal(g) == 99
  {
    if |g| == 1 && 'A' <= g[0] <= 'E' {
      assert g == [g[0]];
    }
  }

  /** `_nutriscore_to_value(grade)`: a falsy grade gives 99; otherwise the
      grade is upper-cased, then stripped, then looked up in the table. */
  function NutriscoreValue(grade: Field<string>): (r: int)
    ensures 1 <= r <= 5 || r == 99
    ensures !Truthy(grade) ==> r == 99
  {
    if !Truthy(grade) then 99 else GradeOrdinal(Strip(Upper(grade.v)))
  }

  /** The ordinal of a product, the sort key of `find_alternatives`. */
  function Value(p: Product): int {
    NutriscoreValue(p.nutriscoreGrade)
  }

  /** A key has ordinal `k` in 1..5 exactly when it is the one-letter string
      of `k`. */
  lemma GradeOrdinalLetter(g: string, k: int)
    requires 1 <= k <= 5
    ensures GradeOrdinal(g) == k <==> g == [GradeLetter(k)]
  {
    if |g| == 1 {
      assert g == [g[0]];
    }
  }

  /** The upper-cased, stripped grade has ordinal `k` exactly when it is the
      one-letter string of `k`. */
  lemma NutriscoreValueStripped(s: string, k: int)
    requires 1 <= k <= 5 && s != ""
    ensures NutriscoreValue(Val(s)) == k <==> Strip(Upper(s)) == [GradeLetter(k)]
  {
    GradeOrdinalLetter(Strip(Upper(s)), k);
  }

  lemma NonEmptyGrade(s: string, k: int)
    requires 1 <= k <= 5 && |s| > 0
    ensures NutriscoreValue(Val(s)) == k <==> Strip(s) == [GradeLetter(k)] || Strip(s) == [LowerChar(GradeLetter(k))]
  {
    var L := GradeLetter(k);
    var t := Strip(s);
    assert Strip(Upper(s)) == Upper(t) by {
      StripUpper(s);
    }
    assert Upper(t) == [L] <==> t == [L] || t == [LowerChar(L)] by {
      UpperSingleCapital(t, L);
    }
    NutriscoreValueStripped(s, k);
  }

  /** A grade string has ordinal `k` in 1..5 exactly when, leading and
      trailing whitespace aside, it is the letter of `k` in either case. */
  lemma NutriscoreValueLetter(s: string, k: int)
    requires 1 <= k <= 5
    ensures NutriscoreValue(Val(s)) == k <==> Strip(s) == [GradeLetter(k)] || Strip(s) == [LowerChar(GradeLetter(k))]
  {
    if |s| > 0 {
      NonEmptyGrade(s, k);
    } else {
      assert s == [] && Strip(s) == [];
    }
  }

  /** Every other string, and a missing or null grade, ranks below E. */
  lemma NutriscoreValueOther(grade: Field<string>)
    requires forall k :: 1 <= k <= 5 ==> !(grade.Val? && (Strip(grade.v) == [GradeLetter(k)] || Strip(grade.v) == [LowerChar(GradeLetter(k))]))
    ensures NutriscoreValue(grade) == 99
  {
    if grade.Val? {
      var r := NutriscoreValue(grade);
      if r != 99 {
        NutriscoreValueLetter(grade.v, r);
      }
    }
  }

  /** An example: whitespace around a grade is stripped before the lookup. */
  lemma NutriscoreValueSpaced()
    ensures NutriscoreValue(Val(" e\n")) == 5
  {
    assert Strip(" e\n") == "e" by {
      assert " e\n" == " " + "e\n" && "e\n" == "e" + "\n";
      TrimLeftPrefix(" ", "e\n");
      TrimRightAllSpace("e", "\n");
    }
    NutriscoreValueLetter(" e\n", 5);
  }
}
