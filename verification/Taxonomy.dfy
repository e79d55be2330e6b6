/** The fixed classification of expenses: an ordered category -> subcategories
    dictionary and the list of accepted payment methods. It is hard-coded in the
    dashboard and never changes while it runs. */
module Taxonomy {
  import opened Text

  /** `list(categorias.keys())`. */
  const Categories: seq<string> := [
    "Alimentación", "Vivienda", "Transporte", "Salud", "Educación",
    "Entretenimiento", "Ropa y Calzado", "Mascota y plantas", "Ahorro e Inversiones", "Otros"
  ]

  /** The choices of the "Medio de Pago" selector. */
  const PaymentMethods: seq<string> := ["Efectivo", "Tarjeta de Crédito", "Transferencia"]

  datatype CategoryEntry = CategoryEntry(name: string, subcategories: seq<string>)

  /** The `categorias` dictionary, entry by entry in its insertion order. */
  const Table: seq<CategoryEntry> := [
    CategoryEntry("Alimentación", ["Supermercado", "Restaurantes", "Comida rápida", "Botellón Agua", "Tienda Barrio"]),
    CategoryEntry("Vivienda", ["Hipoteca/Alquiler", "Servicios básicos", "Mantenimiento"]),
    CategoryEntry("Transporte", ["Combustible", "Transporte público", "Mantenimiento vehículo", "Seguro Vehicular", "Matricula vehículo"]),
    CategoryEntry("Salud", ["Medicinas", "Consultas médicas", "Seguros", "Peluquería/Estetica"]),
    CategoryEntry("Educación", ["Colegiaturas", "Libros", "Cursos y talleres"]),
    CategoryEntry("Entretenimiento", ["Cine", "Eventos", "Suscripciones", "Paseos Fin de Semana"]),
    CategoryEntry("Ropa y Calzado", ["Ropa", "Calzado", "Accesorios"]),
    CategoryEntry("Mascota y plantas", ["Alimentación", "Salud", "Accesorios", "Mantenimiento"]),
    CategoryEntry("Ahorro e Inversiones", ["Ahorro", "Inversiones", "Fondo emergencias"]),
    CategoryEntry("Otros", ["Varios", "Donaciones", "Regalos", "Padres"])
  ]

  /** `categorias[cat]`: the list the table gives for a category, and no
      subcategories for a name outside the table. */
  function Subcategories(cat: string): (subs: seq<string>)
    ensures forall i :: 0 <= i < |Table| && Table[i].name == cat ==> subs == Table[i].subcategories
    ensures cat !in Categories ==> subs == []
  {
    CategoriesMatchTable();
    assert forall i, j :: 0 <= i < j < |Table| ==> Table[i].name != Table[j].name by {
      forall i, j | 0 <= i < j < |Table| ensures Table[i].name != Table[j].name {
        assert Categories[i] == Table[i].name && Categories[j] == Table[j].name;
      }
    }
    assert cat !in Categories ==> forall i :: 0 <= i < |Table| ==> Table[i].name != cat by {
      if cat !in Categories {
        forall i | 0 <= i < |Table| ensures Table[i].name != cat {
          assert Categories[i] in Categories;
        }
      }
    }
    LookUpFinds(Table, cat);
    LookUp(Table, cat)
  }

  function LookUp(t: seq<CategoryEntry>, cat: string): seq<string> {
    if t == [] then []
    else if t[0].name == cat then t[0].subcategories
    else LookUp(t[1..], cat)
  }

  /** In a table without repeated names, the search returns the entry of that
      name, and nothing when there is none. */
  lemma {:induction false} LookUpFinds(t: seq<CategoryEntry>, cat: string)
    requires forall i, j :: 0 <= i < j < |t| ==> t[i].name != t[j].name
    ensures forall i :: 0 <= i < |t| && t[i].name == cat ==> LookUp(t, cat) == t[i].subcategories
    ensures (forall i :: 0 <= i < |t| ==> t[i].name != cat) ==> LookUp(t, cat) == []
  {
    if t != [] {
      LookUpFinds(t[1..], cat);
      forall i | 1 <= i < |t| && t[i].name == cat ensures LookUp(t, cat) == t[i].subcategories {
        assert t[1..][i - 1] == t[i];
      }
      if forall i :: 0 <= i < |t| ==> t[i].name != cat {
        forall i | 0 <= i < |t[1..]| ensures t[1..][i].name != cat {
          assert t[1..][i] == t[i + 1];
        }
      }
    }
  }

  /** What the expense form lets through: a category of the table, one of its
      subcategories and one of the payment methods. */
  predicate Classified(cat: string, sub: string, pay: string) {
    sub in Subcategories(cat) && pay in PaymentMethods
  }

  /** No category lists a subcategory twice, so a per-subcategory
      breakdown of one category has one entry per subcategory. */
  lemma SubcategoriesDistinct(cat: string)
    ensures Distinct(Subcategories(cat))
  {
    EntriesDistinct();
    LookUpIsAnEntry(Table, cat);
  }

  lemma EntriesDistinct()
    ensures forall e | e in Table :: Distinct(e.subcategories)
  {
    FirstEntriesDistinct();
    LastEntriesDistinct();
    forall e | e in Table ensures Distinct(e.subcategories) {
      var i :| 0 <= i < |Table| && Table[i] == e;
    }
  }

  lemma FirstEntriesDistinct()
    ensures forall i | 0 <= i < 5 :: Distinct(Table[i].subcategories)
  {
  }

  lemma LastEntriesDistinct()
    ensures forall i | 5 <= i < |Table| :: Distinct(Table[i].subcategories)
  {
  }

  lemma {:induction false} LookUpIsAnEntry(t: seq<CategoryEntry>, cat: string)
    ensures LookUp(t, cat) == [] || exists e :: e in t && LookUp(t, cat) == e.subcategories
  {
    if t != [] && t[0].name != cat {
      LookUpIsAnEntry(t[1..], cat);
    }
  }

  /** `Categories` lists the table's names in the table's order, each name
      once, so a per-category report has exactly one row per category. */
  lemma CategoriesMatchTable()
    ensures |Categories| == |Table|
    ensures forall i :: 0 <= i < |Table| ==> Categories[i] == Table[i].name
    ensures Distinct(Categories)
  {
    CategoriesDistinct();
  }

  lemma CategoriesDistinct()
    ensures Distinct(Categories)
  {
  }
}
