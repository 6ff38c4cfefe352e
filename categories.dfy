/**
 * Product category codes and their Korean names. The table is a
 * JavaScript object literal, so a lookup by code also sees what every
 * object inherits from `Object.prototype`.
 */
module Categories {
  import opened Wrappers

  datatype Category = Category(code: string, name: string)

  /** `CATEGORIES`, in declaration order. */
  const CategoryTable: seq<(string, string)> := [
    ("clothing", "의류"),
    ("electronics", "전자제품"),
    ("books", "도서"),
    ("food", "식품"),
    ("sports", "스포츠"),
    ("beauty", "뷰티"),
    ("home", "생활/가정")
  ]

  const Uncategorized := "미분류"

  /** The table's own entry for `code`. */
  function OwnName(code: string): (r: Option<string>)
    ensures r.Some? <==> exists i :: 0 <= i < |CategoryTable| && CategoryTable[i].0 == code
    ensures r.Some? ==> (code, r.value) in CategoryTable
  {
    FirstName(CategoryTable, code)
  }

  function FirstName(table: seq<(string, string)>, code: string): (r: Option<string>)
    ensures r.Some? <==> exists i :: 0 <= i < |table| && table[i].0 == code
    ensures r.Some? ==> (code, r.value) in table
  {
    if table == [] then None
    else if table[0].0 == code then Some(table[0].1)
    else
      var r := FirstName(table[1..], code);
      assert forall i :: 1 <= i < |table| ==> table[i] == table[1..][i - 1];
      r
  }

  /** `CATEGORY_LIST`: the table's entries as code/name records. */
  function CategoryList(): (r: seq<Category>)
    ensures |r| == |CategoryTable|
    ensures forall i :: 0 <= i < |r| ==> r[i] == Category(CategoryTable[i].0, CategoryTable[i].1)
  {
    seq(|CategoryTable|, i requires 0 <= i < |CategoryTable| => Category(CategoryTable[i].0, CategoryTable[i].1))
  }

  /** The list has the seven categories in declaration order, each code once, each with a name. */
  lemma CategoryListIsTheTable()
    ensures CategoryList() == [
              Category("clothing", "의류"), Category("electronics", "전자제품"), Category("books", "도서"),
              Category("food", "식품"), Category("sports", "스포츠"), Category("beauty", "뷰티"),
              Category("home", "생활/가정")]
    ensures forall i, j :: 0 <= i < j < |CategoryList()| ==> CategoryList()[i].code != CategoryList()[j].code
    ensures forall i :: 0 <= i < |CategoryList()| ==> CategoryList()[i].name != ""
  {
  }

  /**
   * `getCategoryName` with the lookup confined to the table's own entries:
   * no code names "미분류", a known code its name, any other code itself.
   */
  function CategoryName(categoryCode: Option<string>): (r: string)
    ensures categoryCode.None? || categoryCode == Some("") ==> r == Uncategorized
    ensures categoryCode.Some? && categoryCode.value != "" && OwnName(categoryCode.value).Some? ==>
              (categoryCode.value, r) in CategoryTable
    ensures categoryCode.Some? && categoryCode.value != "" && OwnName(categoryCode.value).None? ==>
              r == categoryCode.value
  {
    if categoryCode.None? || categoryCode.value == "" then Uncategorized
    else
      match OwnName(categoryCode.value)
      case Some(name) => if name != "" then name else categoryCode.value
      case None => categoryCode.value
  }

  /** Each known code gets its own name, and no code is ever shown as an empty name. */
  lemma CategoryNameOfKnownCode(i: nat)
    requires i < |CategoryTable|
    ensures CategoryName(Some(CategoryTable[i].0)) == CategoryTable[i].1
    ensures forall c :: CategoryName(c) != ""
  {
    CategoryListIsTheTable();
  }

  // ------------------------------------------------- lookup as the code does it

  /** What a property read on the object literal yields. */
  datatype JsValue = Undefined | Str(s: string) | Inherited(member: string)

  /** The names every object inherits from `Object.prototype`. */
  const PrototypeMembers: set<string> := {
    "constructor", "hasOwnProperty", "isPrototypeOf", "propertyIsEnumerable",
    "toLocaleString", "toString", "valueOf",
    "__proto__", "__defineGetter__", "__defineSetter__", "__lookupGetter__", "__lookupSetter__"
  }

  /** `CATEGORIES[code]`: an own entry, else an inherited member, else `undefined`. */
  function PropertyRead(code: string): JsValue {
    match OwnName(code)
    case Some(name) => Str(name)
    case None => if code in PrototypeMembers then Inherited(code) else Undefined
  }

  /** JavaScript truthiness: a non-empty string, or any inherited function or object. */
  predicate Truthy(v: JsValue) {
    match v
    case Undefined => false
    case Str(s) => s != ""
    case Inherited(_) => true
  }

  /** The inherited member names are long: of the lengths the table uses, only 8 and 11 occur, as "toString" and "constructor". */
  lemma InheritedNameShape(code: string)
    requires code in PrototypeMembers
    ensures |code| >= 7
    ensures |code| == 8 ==> code[0] == 't'
    ensures |code| == 11 ==> code[0] == 'c'
  {
  }

  /** The table's codes: 4 to 6 characters, or "clothing" (8) and "electronics" (11). */
  lemma TableCodeShape(i: nat)
    requires i < |CategoryTable|
    ensures |CategoryTable[i].0| <= 6 || CategoryTable[i].0 == "clothing" || CategoryTable[i].0 == "electronics"
  {
  }

  /** No code of the table is the name of an inherited member. */
  lemma TableCodesNotInherited(code: string)
    requires code in PrototypeMembers
    ensures OwnName(code).None?
  {
    if OwnName(code).Some? {
      var i :| 0 <= i < |CategoryTable| && CategoryTable[i].0 == code;
      InheritedNameShape(code);
      TableCodeShape(i);
      assert false;
    }
  }

  /** `getCategoryName` as written: `CATEGORIES[code] || code`. */
  function CategoryNameAsWritten(categoryCode: Option<string>): (r: JsValue)
    ensures !r.Str? <==> categoryCode.Some? && categoryCode.value in PrototypeMembers
  {
    if categoryCode.None? || categoryCode.value == "" then Str(Uncategorized)
    else
      var v := PropertyRead(categoryCode.value);
      assert categoryCode.value in PrototypeMembers ==> v.Inherited? by {
        if categoryCode.value in PrototypeMembers {
          TableCodesNotInherited(categoryCode.value);
        }
      }
      if Truthy(v) then v else Str(categoryCode.value)
  }

  /** The code "constructor" yields the inherited `Object` function, not a string. */
  lemma ConstructorCodeYieldsNoString()
    ensures !CategoryNameAsWritten(Some("constructor")).Str?
  {
    assert OwnName("constructor").None? by {
      CategoryListIsTheTable();
      assert forall i :: 0 <= i < |CategoryTable| ==> CategoryTable[i].0 != "constructor";
    }
  }

  /** Apart from the inherited member names, the code as written gives the corrected name. */
  lemma AsWrittenAgreesOffPrototype(categoryCode: Option<string>)
    requires categoryCode.Some? ==> categoryCode.value !in PrototypeMembers
    ensures CategoryNameAsWritten(categoryCode) == Str(CategoryName(categoryCode))
  {
  }
}
