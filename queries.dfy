/**
 * The SQL texts of the backend (grpcService/pkg/utils/queries.go) and GenerateQuery, which builds a
 * partial UPDATE statement by reflecting over a User. The model keeps what the code does: columns
 * are appended with no separators and no per-column placeholders, Age is always selected, and the
 * id is not among the arguments. GenerateQueryCorrected is the statement the code evidently means.
 */
module Queries {
  import opened Entities

  // ---------------------------------------------------------------------------------------------
  // Placeholders in SQL text

  /** The number of `?` placeholders in a SQL text. */
  function Placeholders(s: string): nat
  {
    if s == [] then 0 else (if s[0] == '?' then 1 else 0) + Placeholders(s[1..])
  }

  lemma {:induction false} PlaceholdersConcat(a: string, b: string)
    ensures Placeholders(a + b) == Placeholders(a) + Placeholders(b)
  {
    if a == [] {
      assert a + b == b;
    } else {
      assert (a + b)[1..] == a[1..] + b;
      PlaceholdersConcat(a[1..], b);
    }
  }

  lemma {:induction false} NoPlaceholders(s: string)
    requires '?' !in s
    ensures Placeholders(s) == 0
  {
    if s != [] {
      assert s[0] != '?';
      NoPlaceholders(s[1..]);
    }
  }

  /** A text free of placeholders followed by one `?` holds exactly one placeholder. */
  lemma EndsInPlaceholder(a: string)
    requires '?' !in a
    ensures Placeholders(a + "?") == 1
  {
    NoPlaceholders(a);
    assert "?"[1..] == [];
    assert Placeholders("?") == 1;
    PlaceholdersConcat(a, "?");
  }

  /** Strings joined with ", ", as in a column list or a SET list. */
  function JoinComma(ss: seq<string>): string
  {
    if |ss| == 0 then "" else if |ss| == 1 then ss[0] else ss[0] + ", " + JoinComma(ss[1..])
  }

  lemma CommaPlaceholders()
    ensures Placeholders(", ") == 0
  {
    assert '?' !in ", ";
    NoPlaceholders(", ");
  }

  /** Joining strings that hold one placeholder each gives one per string. */
  lemma {:induction false} PlaceholdersJoinComma(ss: seq<string>)
    requires forall i :: 0 <= i < |ss| ==> Placeholders(ss[i]) == 1
    ensures Placeholders(JoinComma(ss)) == |ss|
  {
    if |ss| == 1 {
      assert JoinComma(ss) == ss[0];
    } else if |ss| > 1 {
      var rest := ss[1..];
      assert forall i :: 0 <= i < |rest| ==> rest[i] == ss[i + 1];
      PlaceholdersJoinComma(rest);
      CommaPlaceholders();
      assert JoinComma(ss) == ss[0] + ", " + JoinComma(rest);
      PlaceholdersConcat(ss[0], ", ");
      PlaceholdersConcat(ss[0] + ", ", JoinComma(rest));
    }
  }

  // ---------------------------------------------------------------------------------------------
  // The fixed statements

  /** The columns of CreateUserQuery, in order. */
  const InsertColumns: seq<string> := ["first_name", "id", "pass", "age", "email"]

  // The source's literal texts; CreateUserQuery is written split at its column list and values list.
  const CreateUserQuery: string :=
    "INSERT INTO USER (" + "first_name, id, pass, age, email" + ") VALUES " + "(?,?,?,?,?)"
  const GetUserQuery: string := "SELECT first_name, age, email FROM USER WHERE id=?"
  const GetPasswordQuery: string := "SELECT pass FROM USER WHERE id = ?"
  const DeleteUserQuery: string := "DELETE FROM USER WHERE id = ?"
  const UpdateUserQuery: string := "UPDATE USER SET first_name, pass, age, email WHERE id = ?"

  /** A field value as reflection hands it out: a string or a uint32. */
  datatype FieldValue = Str(s: string) | U32(n: uint32)

  /** The arguments the backend repository binds to CreateUserQuery, in the order it passes them. */
  function CreateUserArgs(user: User, newId: string): (r: seq<FieldValue>)
    ensures |r| == |InsertColumns|
    ensures r[0] == Str(user.name) && r[1] == Str(newId) && r[2] == Str(user.pass)
    ensures r[3] == U32(user.age) && r[4] == Str(user.email)
  {
    [Str(user.name), Str(newId), Str(user.pass), U32(user.age), Str(user.email)]
  }

  lemma InsertPrefixPlaceholders()
    ensures Placeholders("INSERT INTO USER (") == 0
  {
    assert '?' !in "INSERT INTO USER (";
    NoPlaceholders("INSERT INTO USER (");
  }

  lemma ValuesKeywordPlaceholders()
    ensures Placeholders(") VALUES ") == 0
  {
    assert '?' !in ") VALUES ";
    NoPlaceholders(") VALUES ");
  }

  lemma InsertColumnListText()
    ensures JoinComma(InsertColumns) == "first_name, id, pass, age, email"
  {
  }

  lemma InsertColumnListPlaceholders()
    ensures Placeholders("first_name, id, pass, age, email") == 0
  {
    assert '?' !in "first_name, id, pass, age, email";
    NoPlaceholders("first_name, id, pass, age, email");
  }

  lemma ValuesListPlaceholders()
    ensures Placeholders("(?,?,?,?,?)") == 5
  {
  }

  /** CreateUserQuery names the five columns and carries one placeholder per column. */
  lemma CreateUserQueryShape()
    ensures CreateUserQuery == "INSERT INTO USER (" + JoinComma(InsertColumns) + ") VALUES " + "(?,?,?,?,?)"
    ensures Placeholders(CreateUserQuery) == |InsertColumns| == 5
  {
    var a, b, c, d := "INSERT INTO USER (", "first_name, id, pass, age, email", ") VALUES ", "(?,?,?,?,?)";
    InsertPrefixPlaceholders();
    InsertColumnListText();
    InsertColumnListPlaceholders();
    ValuesKeywordPlaceholders();
    ValuesListPlaceholders();
    PlaceholdersConcat(a, b);
    PlaceholdersConcat(a + b, c);
    PlaceholdersConcat(a + b + c, d);
  }

  // ---------------------------------------------------------------------------------------------
  // Reflection over User

  /** A field of User as reflection sees it: its name and its value. */
  datatype Field = Field(name: string, value: FieldValue)

  /** The fields of a User in declaration order. */
  function Reflect(user: User): (fs: seq<Field>)
    ensures |fs| == |UserFieldNames|
    ensures forall i :: 0 <= i < |fs| ==> fs[i].name == UserFieldNames[i]
  {
    [Field("Name", Str(user.name)), Field("Pass", Str(user.pass)),
     Field("Age", U32(user.age)), Field("Email", Str(user.email))]
  }

  /** referencesToSQL[name]: the mapped column, or Go's zero value "" for a name the table lacks. */
  function Column(name: string): string
  {
    if name in FieldsReferenceSql then FieldsReferenceSql[name] else ""
  }

  lemma ColumnNamesPlaceholders()
    ensures Placeholders("first_name") == 0 && Placeholders("pass") == 0
    ensures Placeholders("age") == 0 && Placeholders("email") == 0
  {
    assert '?' !in "first_name";
    NoPlaceholders("first_name");
    assert '?' !in "pass";
    NoPlaceholders("pass");
    assert '?' !in "age";
    NoPlaceholders("age");
    assert '?' !in "email";
    NoPlaceholders("email");
  }

  lemma ColumnHasNoPlaceholder(name: string)
    ensures Placeholders(Column(name)) == 0
  {
    ColumnNamesPlaceholders();
    if name == "Name" {
    } else if name == "Pass" {
    } else if name == "Age" {
    } else if name == "Email" {
    } else {
      assert name !in FieldsReferenceSql;
    }
  }

  /** Every column of the field table is a column of CreateUserQuery. */
  lemma MappedColumnsAreInsertColumns(f: string)
    requires f in FieldsReferenceSql
    ensures FieldsReferenceSql[f] in InsertColumns
  {
  }

  /** The repository binds each field's value at the position of that field's column, and the id at "id". */
  lemma CreateUserBindOrder(user: User, newId: string)
    ensures |CreateUserArgs(user, newId)| == |InsertColumns|
    ensures forall j :: 0 <= j < |InsertColumns| && InsertColumns[j] == "id" ==>
              CreateUserArgs(user, newId)[j] == Str(newId)
    ensures forall i, j ::
              (0 <= i < |Reflect(user)| && 0 <= j < |InsertColumns| &&
               InsertColumns[j] == Column(Reflect(user)[i].name)) ==>
              CreateUserArgs(user, newId)[j] == Reflect(user)[i].value
  {
  }

  // ---------------------------------------------------------------------------------------------
  // GenerateQuery, as written

  const UpdatePrefix: string := "UPDATE USER SET"
  const WhereIdClause: string := "WHERE id = " + "?"

  /**
   * `v.Field(i).Interface() != ""`: an interface comparison, so only a string field holding ""
   * counts as empty; a uint32 never equals the string "".
   */
  predicate IsEmptyString(v: FieldValue)
  {
    v == Str("")
  }

  /** The column names GenerateQuery writes for the fields fs, concatenated without separators. */
  function SetColumnsAsWritten(fs: seq<Field>): string
  {
    if fs == [] then ""
    else
      var last := fs[|fs| - 1];
      SetColumnsAsWritten(fs[..|fs| - 1]) + (if IsEmptyString(last.value) then "" else Column(last.name))
  }

  /** The values GenerateQuery collects for the fields fs. */
  function SetArgsAsWritten(fs: seq<Field>): seq<FieldValue>
  {
    if fs == [] then []
    else
      var last := fs[|fs| - 1];
      SetArgsAsWritten(fs[..|fs| - 1]) + (if IsEmptyString(last.value) then [] else [last.value])
  }

  /** The column GenerateQuery writes for one field and the arguments it collects for it. */
  function ColumnOf(f: Field): string { if IsEmptyString(f.value) then "" else Column(f.name) }
  function ArgsOf(f: Field): seq<FieldValue> { if IsEmptyString(f.value) then [] else [f.value] }

  /** Visiting one more field appends its column and its arguments. */
  lemma AsWrittenStep(fs: seq<Field>, i: nat)
    requires i < |fs|
    ensures SetColumnsAsWritten(fs[..i + 1]) == SetColumnsAsWritten(fs[..i]) + ColumnOf(fs[i])
    ensures SetArgsAsWritten(fs[..i + 1]) == SetArgsAsWritten(fs[..i]) + ArgsOf(fs[i])
  {
    assert fs[..i + 1][..i] == fs[..i];
  }

  /** GenerateQuery: visit the fields in order, appending the column and collecting the value of each non-empty one. */
  method GenerateQuery(user: User) returns (query: string, args: seq<FieldValue>)
    ensures query == UpdatePrefix + SetColumnsAsWritten(Reflect(user)) + WhereIdClause
    ensures args == SetArgsAsWritten(Reflect(user))
  {
    var fields := Reflect(user);
    var builder := UpdatePrefix;
    args := [];
    var i := 0;
    while i < |fields|
      invariant 0 <= i <= |fields|
      invariant builder == UpdatePrefix + SetColumnsAsWritten(fields[..i])
      invariant args == SetArgsAsWritten(fields[..i])
    {
      AsWrittenStep(fields, i);
      var field := fields[i];
      if field.value != Str("") {
        builder := builder + Column(field.name);
        args := args + [field.value];
      }
      i := i + 1;
    }
    assert fields[..i] == fields;
    query := builder + WhereIdClause;
  }


  lemma {:induction false} AsWrittenOfFour(f0: Field, f1: Field, f2: Field, f3: Field)
    ensures SetColumnsAsWritten([f0, f1, f2, f3]) == ColumnOf(f0) + ColumnOf(f1) + ColumnOf(f2) + ColumnOf(f3)
    ensures SetArgsAsWritten([f0, f1, f2, f3]) == ArgsOf(f0) + ArgsOf(f1) + ArgsOf(f2) + ArgsOf(f3)
  {
    assert [f0][..0] == [];
    assert [f0, f1][..1] == [f0];
    assert [f0, f1, f2][..2] == [f0, f1];
    assert [f0, f1, f2, f3][..3] == [f0, f1, f2];
    assert SetColumnsAsWritten([f0]) == ColumnOf(f0);
    assert SetColumnsAsWritten([f0, f1]) == SetColumnsAsWritten([f0]) + ColumnOf(f1);
    assert SetColumnsAsWritten([f0, f1, f2]) == SetColumnsAsWritten([f0, f1]) + ColumnOf(f2);
    assert SetColumnsAsWritten([f0, f1, f2, f3]) == SetColumnsAsWritten([f0, f1, f2]) + ColumnOf(f3);
    assert SetArgsAsWritten([f0]) == ArgsOf(f0);
    assert SetArgsAsWritten([f0, f1]) == SetArgsAsWritten([f0]) + ArgsOf(f1);
    assert SetArgsAsWritten([f0, f1, f2]) == SetArgsAsWritten([f0, f1]) + ArgsOf(f2);
    assert SetArgsAsWritten([f0, f1, f2, f3]) == SetArgsAsWritten([f0, f1, f2]) + ArgsOf(f3);
  }

  /**
   * The columns GenerateQuery selects: in declaration order, each string field iff it is non-empty,
   * and "age" always, with nothing between them.
   */
  lemma GenerateQueryColumns(user: User)
    ensures SetColumnsAsWritten(Reflect(user)) ==
      (if user.name != "" then "first_name" else "") + (if user.pass != "" then "pass" else "") +
      "age" + (if user.email != "" then "email" else "")
  {
    AsWrittenOfFour(Field("Name", Str(user.name)), Field("Pass", Str(user.pass)),
                    Field("Age", U32(user.age)), Field("Email", Str(user.email)));
  }

  /** The arguments GenerateQuery collects: the selected values, in the order of the selected columns. */
  lemma GenerateQueryArgs(user: User)
    ensures SetArgsAsWritten(Reflect(user)) ==
      (if user.name != "" then [Str(user.name)] else []) + (if user.pass != "" then [Str(user.pass)] else []) +
      [U32(user.age)] + (if user.email != "" then [Str(user.email)] else [])
  {
    AsWrittenOfFour(Field("Name", Str(user.name)), Field("Pass", Str(user.pass)),
                    Field("Age", U32(user.age)), Field("Email", Str(user.email)));
  }

  /** The number of non-empty string fields of a User. */
  function NonEmptyStrings(user: User): nat
  {
    (if user.name != "" then 1 else 0) + (if user.pass != "" then 1 else 0) + (if user.email != "" then 1 else 0)
  }

  lemma UpdatePrefixPlaceholders()
    ensures Placeholders(UpdatePrefix) == 0
  {
    assert '?' !in UpdatePrefix;
    NoPlaceholders(UpdatePrefix);
  }

  lemma WhereIdClausePlaceholders()
    ensures Placeholders(WhereIdClause) == 1
  {
    assert '?' !in "WHERE id = ";
    EndsInPlaceholder("WHERE id = ");
  }

  lemma ColumnOfHasNoPlaceholder(f: Field)
    ensures Placeholders(ColumnOf(f)) == 0
  {
    ColumnHasNoPlaceholder(f.name);
  }

  lemma NoPlaceholdersInFour(a: string, b: string, c: string, d: string)
    requires Placeholders(a) == 0 && Placeholders(b) == 0 && Placeholders(c) == 0 && Placeholders(d) == 0
    ensures Placeholders(a + b + c + d) == 0
  {
    PlaceholdersConcat(a, b);
    PlaceholdersConcat(a + b, c);
    PlaceholdersConcat(a + b + c, d);
  }

  lemma SelectedColumnsPlaceholders(user: User)
    ensures Placeholders(SetColumnsAsWritten(Reflect(user))) == 0
  {
    var fs := Reflect(user);
    assert fs == [fs[0], fs[1], fs[2], fs[3]];
    AsWrittenOfFour(fs[0], fs[1], fs[2], fs[3]);
    ColumnOfHasNoPlaceholder(fs[0]);
    ColumnOfHasNoPlaceholder(fs[1]);
    ColumnOfHasNoPlaceholder(fs[2]);
    ColumnOfHasNoPlaceholder(fs[3]);
    NoPlaceholdersInFour(ColumnOf(fs[0]), ColumnOf(fs[1]), ColumnOf(fs[2]), ColumnOf(fs[3]));
  }

  /**
   * The generated text always holds exactly one placeholder (the id's), while the arguments hold one
   * value per selected column and never the id: the counts differ whenever a string field is set, and
   * when they agree the one argument is the age.
   */
  lemma GenerateQueryPlaceholders(user: User)
    ensures Placeholders(UpdatePrefix + SetColumnsAsWritten(Reflect(user)) + WhereIdClause) == 1
    ensures |SetArgsAsWritten(Reflect(user))| == 1 + NonEmptyStrings(user)
    ensures NonEmptyStrings(user) == 0 ==> SetArgsAsWritten(Reflect(user)) == [U32(user.age)]
  {
    GenerateQueryArgs(user);
    GenerateQueryTextPlaceholders(SetColumnsAsWritten(Reflect(user)));
    SelectedColumnsPlaceholders(user);
  }

  lemma GenerateQueryTextPlaceholders(cols: string)
    ensures Placeholders(UpdatePrefix + cols + WhereIdClause) == Placeholders(cols) + 1
  {
    UpdatePrefixPlaceholders();
    WhereIdClausePlaceholders();
    PlaceholdersConcat(UpdatePrefix, cols);
    PlaceholdersConcat(UpdatePrefix + cols, WhereIdClause);
  }

  /** For the user of the services' tests, four values meet a text with one placeholder and no separators. */
  lemma GenerateQueryTestUser()
    ensures var user := User("Timo", "123", 19, "timoteo@globant.com");
      && UpdatePrefix + SetColumnsAsWritten(Reflect(user)) + WhereIdClause
         == UpdatePrefix + "first_namepassageemail" + WhereIdClause
      && SetArgsAsWritten(Reflect(user)) == [Str("Timo"), Str("123"), U32(19), Str("timoteo@globant.com")]
      && Placeholders(UpdatePrefix + SetColumnsAsWritten(Reflect(user)) + WhereIdClause) == 1
  {
    var user := User("Timo", "123", 19, "timoteo@globant.com");
    GenerateQueryColumns(user);
    GenerateQueryArgs(user);
    GenerateQueryPlaceholders(user);
  }

  // ---------------------------------------------------------------------------------------------
  // GenerateQuery, corrected

  /** A field holding its type's zero value: the empty string, or an age of 0. */
  predicate IsZeroValue(v: FieldValue)
  {
    v == Str("")  || v == U32(0)
  }

  lemma AssignmentPlaceholders(name: string)
    ensures Placeholders(Column(name) + " = ?") == 1
  {
    ColumnHasNoPlaceholder(name);
    assert " = ?" == " = " + "?";
    assert '?' !in " = ";
    EndsInPlaceholder(" = ");
    PlaceholdersConcat(Column(name), " = ?");
  }

  /** What the corrected builder sets for one field, and the value it binds for it. */
  function AssignmentOf(f: Field): seq<string> { if IsZeroValue(f.value) then [] else [Column(f.name) + " = ?"] }
  function AssignedValueOf(f: Field): seq<FieldValue> { if IsZeroValue(f.value) then [] else [f.value] }

  /** The `column = ?` assignments of the non-zero fields, in field order. */
  function Assignments(fs: seq<Field>): seq<string>
  {
    if fs == [] then [] else AssignmentOf(fs[0]) + Assignments(fs[1..])
  }

  /** Every assignment carries exactly one placeholder. */
  lemma {:induction false} AssignmentsPlaceholders(fs: seq<Field>)
    ensures forall j :: 0 <= j < |Assignments(fs)| ==> Placeholders(Assignments(fs)[j]) == 1
  {
    if fs != [] {
      AssignmentsPlaceholders(fs[1..]);
      if !IsZeroValue(fs[0].value) {
        AssignmentPlaceholders(fs[0].name);
      }
    }
  }

  /** The values of the non-zero fields, in field order. */
  function AssignedValues(fs: seq<Field>): (r: seq<FieldValue>)
    ensures |r| == |Assignments(fs)|
    ensures forall j :: 0 <= j < |r| ==> !IsZeroValue(r[j])
  {
    if fs == [] then [] else AssignedValueOf(fs[0]) + AssignedValues(fs[1..])
  }

  const CorrectedUpdatePrefix: string := "UPDATE USER SET "
  const CorrectedWhereIdClause: string := " WHERE id = " + "?"

  lemma CorrectedUpdatePrefixPlaceholders()
    ensures Placeholders(CorrectedUpdatePrefix) == 0
  {
    assert '?' !in CorrectedUpdatePrefix;
    NoPlaceholders(CorrectedUpdatePrefix);
  }

  lemma CorrectedWhereIdClausePlaceholders()
    ensures Placeholders(CorrectedWhereIdClause) == 1
  {
    assert '?' !in " WHERE id = ";
    EndsInPlaceholder(" WHERE id = ");
  }

  /** A SET list of one-placeholder assignments between the fixed texts holds one placeholder more than it has assignments. */
  lemma CorrectedQueryPlaceholders(assignments: seq<string>)
    requires forall j :: 0 <= j < |assignments| ==> Placeholders(assignments[j]) == 1
    ensures Placeholders(CorrectedUpdatePrefix + JoinComma(assignments) + CorrectedWhereIdClause)
            == |assignments| + 1
  {
    PlaceholdersJoinComma(assignments);
    CorrectedUpdatePrefixPlaceholders();
    CorrectedWhereIdClausePlaceholders();
    PlaceholdersConcat(CorrectedUpdatePrefix, JoinComma(assignments));
    PlaceholdersConcat(CorrectedUpdatePrefix + JoinComma(assignments), CorrectedWhereIdClause);
  }

  /**
   * The statement GenerateQuery evidently means: `UPDATE USER SET c1 = ?, c2 = ? WHERE id = ?` over the
   * non-zero fields, with their values in the same order followed by the id. Placeholders and
   * arguments balance, and the last argument is the id. A caller must set at least one field: with
   * every field at its zero value the SET list is empty and the statement is not valid SQL.
   */
  function GenerateQueryCorrected(user: User, id: string): (r: (string, seq<FieldValue>))
    ensures r.0 == CorrectedUpdatePrefix + JoinComma(Assignments(Reflect(user))) + CorrectedWhereIdClause
    ensures Placeholders(r.0) == |r.1|
    ensures |r.1| >= 1 && r.1[|r.1| - 1] == Str(id)
    ensures r.1[..|r.1| - 1] == AssignedValues(Reflect(user))
  {
    var fields := Reflect(user);
    var assignments := Assignments(fields);
    AssignmentsPlaceholders(fields);
    CorrectedQueryPlaceholders(assignments);
    var args := AssignedValues(fields) + [Str(id)];
    assert args[..|args| - 1] == AssignedValues(fields);
    (CorrectedUpdatePrefix + JoinComma(assignments) + CorrectedWhereIdClause, args)
  }

  lemma {:induction false} AssignmentsOfFour(fs: seq<Field>)
    requires |fs| == 4
    ensures Assignments(fs) == AssignmentOf(fs[0]) + (AssignmentOf(fs[1]) + (AssignmentOf(fs[2]) + AssignmentOf(fs[3])))
  {
    var s1, s2, s3 := fs[1..], fs[2..], fs[3..];
    assert s1[1..] == s2 && s2[1..] == s3 && s3[1..] == [];
    assert s1[0] == fs[1] && s2[0] == fs[2] && s3[0] == fs[3];
    assert AssignmentOf(fs[3]) + [] == AssignmentOf(fs[3]);
    assert Assignments(s3) == AssignmentOf(fs[3]) + [];
    assert Assignments(s2) == AssignmentOf(fs[2]) + Assignments(s3);
    assert Assignments(s1) == AssignmentOf(fs[1]) + Assignments(s2);
  }

  lemma {:induction false} AssignedValuesOfFour(fs: seq<Field>)
    requires |fs| == 4
    ensures AssignedValues(fs)
            == AssignedValueOf(fs[0]) + (AssignedValueOf(fs[1]) + (AssignedValueOf(fs[2]) + AssignedValueOf(fs[3])))
  {
    var s1, s2, s3 := fs[1..], fs[2..], fs[3..];
    assert s1[1..] == s2 && s2[1..] == s3 && s3[1..] == [];
    assert s1[0] == fs[1] && s2[0] == fs[2] && s3[0] == fs[3];
    assert AssignedValueOf(fs[3]) + [] == AssignedValueOf(fs[3]);
    assert AssignedValues(s3) == AssignedValueOf(fs[3]) + [];
    assert AssignedValues(s2) == AssignedValueOf(fs[2]) + AssignedValues(s3);
    assert AssignedValues(s1) == AssignedValueOf(fs[1]) + AssignedValues(s2);
  }

  /** The columns of User's fields, as the table gives them. */
  lemma UserColumns()
    ensures Column("Name") == "first_name" && Column("Pass") == "pass"
    ensures Column("Age") == "age" && Column("Email") == "email"
  {
  }

  /**
   * The corrected builder sets a field iff it is not its zero value (so an age of 0 is left alone),
   * in declaration order, each assignment with its own placeholder.
   */
  lemma GenerateQueryCorrectedAssignments(user: User)
    ensures Assignments(Reflect(user)) ==
      (if user.name != "" then ["first_name" + " = ?"] else []) + ((if user.pass != "" then ["pass" + " = ?"] else []) +
      ((if user.age != 0 then ["age" + " = ?"] else []) + (if user.email != "" then ["email" + " = ?"] else [])))
  {
    var fs := Reflect(user);
    var f0, f1, f2, f3 := fs[0], fs[1], fs[2], fs[3];
    assert f0 == Field("Name", Str(user.name)) && f1 == Field("Pass", Str(user.pass));
    assert f2 == Field("Age", U32(user.age)) && f3 == Field("Email", Str(user.email));
    AssignmentsOfFour(fs);
    UserColumns();
    assert AssignmentOf(f0) == (if user.name != "" then ["first_name" + " = ?"] else []);
    assert AssignmentOf(f1) == (if user.pass != "" then ["pass" + " = ?"] else []);
    assert AssignmentOf(f2) == (if user.age != 0 then ["age" + " = ?"] else []);
    assert AssignmentOf(f3) == (if user.email != "" then ["email" + " = ?"] else []);
  }

  /** The corrected builder binds the values of the fields it sets, at the positions of their assignments. */
  lemma GenerateQueryCorrectedValues(user: User)
    ensures AssignedValues(Reflect(user)) ==
      (if user.name != "" then [Str(user.name)] else []) + ((if user.pass != "" then [Str(user.pass)] else []) +
      ((if user.age != 0 then [U32(user.age)] else []) + (if user.email != "" then [Str(user.email)] else [])))
  {
    var fs := Reflect(user);
    assert fs[0] == Field("Name", Str(user.name)) && fs[1] == Field("Pass", Str(user.pass));
    assert fs[2] == Field("Age", U32(user.age)) && fs[3] == Field("Email", Str(user.email));
    AssignedValuesOfFour(fs);
  }
}
