/**
 * The mentorship store: the CRUD operations on `mentorias` and
 * `mentoria_mentorados`, each guarded by the ownership check, as methods of a
 * class over the two tables; and the partial-update protocol, whose dynamic
 * `SET` list is modelled both as the statement the code builds and as the
 * field-by-field effect that statement must have.
 */
module MentoriaCrud {
  import opened Wrappers
  import opened Models
  import opened Session

  // ---------------------------------------------------------------------------
  // The dynamic UPDATE statement
  // ---------------------------------------------------------------------------

  /** The column name a changeset key is written to, `f"{key} = ${idx}"`. */
  function ColumnName(f: Field): string
  {
    match f
    case DataHora => "data_hora"
    case DuracaoMinutos => "duracao_minutos"
    case Status => "status"
    case Topico => "topico"
    case Titulo => "titulo"
    case Descricao => "descricao"
  }

  /**
   * Whether table `mentorias` has the column. `titulo` and `descricao` are
   * fields of the payload models but not columns of the table.
   */
  predicate HasColumn(f: Field)
  {
    f != Titulo && f != Descricao
  }

  /** In `update_mentoria`, an enum member is replaced by its string value. */
  function Normalize(v: FieldValue): (r: FieldValue)
    ensures !r.StatusMember? && !r.TopicMember?
    ensures v.StatusMember? ==> r.TextValue? && ParseStatus(r.s) == Some(v.st)
    ensures v.TopicMember? ==> r.TextValue? && ParseTopic(r.s) == Some(v.tp)
    ensures !v.StatusMember? && !v.TopicMember? ==> r == v
  {
    match v
    case StatusMember(s) => TextValue(StatusValue(s))
    case TopicMember(t) => TextValue(TopicValue(t))
    case _ => v
  }

  /** Every value of an assignment list normalized, keys kept. */
  function NormalizeAll(fields: seq<(Field, FieldValue)>): (r: seq<(Field, FieldValue)>)
    ensures |r| == |fields|
    ensures forall i :: 0 <= i < |r| ==> r[i] == (fields[i].0, Normalize(fields[i].1))
  {
    seq(|fields|, i requires 0 <= i < |fields| => (fields[i].0, Normalize(fields[i].1)))
  }

  /** One element of the SET list: `column = $param`. */
  datatype SetClause = SetClause(column: Field, param: nat)

  /** The value a placeholder `$k` stands for: the k-th query argument. */
  function Bind(values: seq<FieldValue>, k: nat): FieldValue
    requires 1 <= k <= |values|
  {
    values[k - 1]
  }

  /**
   * In `update_mentoria`, the loop that turns the dumped changeset into SET clauses
   * and query arguments, numbering placeholders from 1, followed by the two
   * arguments of the WHERE filter. Placeholder `$i+1` of clause `i` binds to
   * that field's normalized value; `$paramIdx` binds to the id and
   * `$paramIdx+1` to the owner's email.
   */
  method BuildSetClauses(fields: seq<(Field, FieldValue)>, mentoriaId: int, mentorEmail: string)
    returns (clauses: seq<SetClause>, values: seq<FieldValue>, paramIdx: nat)
    ensures |clauses| == |fields| && paramIdx == |fields| + 1 && |values| == |fields| + 2
    ensures forall i :: 0 <= i < |fields| ==>
      clauses[i].column == fields[i].0 && 1 <= clauses[i].param <= |fields| &&
      Bind(values, clauses[i].param) == Normalize(fields[i].1)
    ensures forall i, j :: 0 <= i < j < |fields| ==> clauses[i].param != clauses[j].param
    ensures Bind(values, paramIdx) == IntValue(mentoriaId)
    ensures Bind(values, paramIdx + 1) == TextValue(mentorEmail)
    ensures Resolve(clauses, values) == NormalizeAll(fields)
  {
    clauses, values, paramIdx := [], [], 1;
    for i := 0 to |fields|
      invariant |clauses| == i && |values| == i && paramIdx == i + 1
      invariant forall k :: 0 <= k < i ==> clauses[k] == SetClause(fields[k].0, k + 1)
      invariant forall k :: 0 <= k < i ==> values[k] == Normalize(fields[k].1)
    {
      var (key, value) := fields[i];
      if value.StatusMember? || value.TopicMember? {
        value := Normalize(value);
      }
      clauses := clauses + [SetClause(key, paramIdx)];
      values := values + [value];
      paramIdx := paramIdx + 1;
    }
    values := values + [IntValue(mentoriaId)];
    values := values + [TextValue(mentorEmail)];
  }

  /** The SET list with every placeholder replaced by its argument. */
  function Resolve(clauses: seq<SetClause>, values: seq<FieldValue>): (r: seq<(Field, FieldValue)>)
    requires forall i :: 0 <= i < |clauses| ==> 1 <= clauses[i].param <= |values|
    ensures |r| == |clauses|
    ensures forall i :: 0 <= i < |r| ==> r[i] == (clauses[i].column, Bind(values, clauses[i].param))
  {
    seq(|clauses|, i requires 0 <= i < |clauses| => (clauses[i].column, Bind(values, clauses[i].param)))
  }

  /** The first assignment to a column the table lacks; PostgreSQL rejects the statement for it. */
  function FirstUndefined(assignments: seq<(Field, FieldValue)>): (r: Option<Field>)
    ensures r.Some? ==> !HasColumn(r.value) && exists i :: 0 <= i < |assignments| && assignments[i].0 == r.value
    ensures r.None? ==> forall i :: 0 <= i < |assignments| ==> HasColumn(assignments[i].0)
  {
    if assignments == [] then None
    else if !HasColumn(assignments[0].0) then Some(assignments[0].0)
    else FirstUndefined(assignments[1..])
  }

  /** A column of a row, read as a value. */
  function ColumnValue(row: MentoriaRow, f: Field): FieldValue
    requires HasColumn(f)
  {
    match f
    case DataHora => IntValue(row.dataHora)
    case DuracaoMinutos => IntValue(row.duracaoMinutos)
    case Status => TextValue(row.status)
    case Topico => TextValue(row.topico)
  }

  /** One assignment `column = value` applied to a row, with the column's constraints. */
  function Assign(row: MentoriaRow, f: Field, v: FieldValue): (r: Result<MentoriaRow, DbError>)
    requires HasColumn(f)
    ensures r.Success? <==> WellTypedFor(f, v)
    ensures r.Success? ==> r.value.id == row.id && r.value.mentorEmail == row.mentorEmail
    ensures r.Success? ==> ColumnValue(r.value, f) == v
    ensures r.Success? ==> forall g :: HasColumn(g) && g != f ==> ColumnValue(r.value, g) == ColumnValue(row, g)
  {
    match (f, v)
    case (_, NullValue) => Failure(NotNullViolation(ColumnName(f)))
    case (DataHora, IntValue(n)) => Success(row.(dataHora := n))
    case (DuracaoMinutos, IntValue(n)) => Success(row.(duracaoMinutos := n))
    case (Status, TextValue(s)) =>
      if s in StatusCheck then Success(row.(status := s)) else Failure(CheckViolation(ColumnName(f)))
    case (Topico, TextValue(s)) => Success(row.(topico := s))
    case _ => Failure(DatatypeMismatch(ColumnName(f)))
  }

  /** Whether the column accepts the value: the right type, not NULL, inside the CHECK list. */
  predicate WellTypedFor(f: Field, v: FieldValue)
    requires HasColumn(f)
  {
    match f
    case DataHora => v.IntValue?
    case DuracaoMinutos => v.IntValue?
    case Status => v.TextValue? && v.s in StatusCheck
    case Topico => v.TextValue?
  }

  /** The assignments of a SET list applied left to right; the first failing one aborts. */
  function ApplyAssignments(row: MentoriaRow, assignments: seq<(Field, FieldValue)>): (r: Result<MentoriaRow, DbError>)
    requires forall i :: 0 <= i < |assignments| ==> HasColumn(assignments[i].0)
    ensures r.Success? ==> r.value.id == row.id && r.value.mentorEmail == row.mentorEmail
    decreases |assignments|
  {
    if assignments == [] then Success(row)
    else
      match Assign(row, assignments[0].0, assignments[0].1)
      case Failure(e) => Failure(e)
      case Success(next) => ApplyAssignments(next, assignments[1..])
  }

  /**
   * Whether asyncpg refuses to encode the assignment's argument: an integer
   * outside int4 for the `INTEGER` column.
   */
  predicate Unencodable(a: (Field, FieldValue))
  {
    a.0 == DuracaoMinutos && a.1.IntValue? && !Int4(a.1.i)
  }

  /** Whether some argument of the SET list cannot be encoded. */
  predicate AnyUnencodable(assignments: seq<(Field, FieldValue)>)
  {
    exists i :: 0 <= i < |assignments| && Unencodable(assignments[i])
  }

  /**
   * Running the SET list on one row, in the order asyncpg and PostgreSQL
   * take the steps: preparing the statement rejects unknown columns, encoding
   * the arguments rejects out-of-range integers, and only then are the
   * assignments executed.
   */
  function ExecuteSet(row: MentoriaRow, assignments: seq<(Field, FieldValue)>): Result<MentoriaRow, DbError>
  {
    match FirstUndefined(assignments)
    case Some(f) => Failure(UndefinedColumn(ColumnName(f)))
    case None =>
      if AnyUnencodable(assignments) then Failure(IntegerOutOfRange)
      else ApplyAssignments(row, assignments)
  }

  /**
   * `UPDATE mentorias SET ... WHERE id = $n AND mentor_email = $n+1 RETURNING ...`:
   * the updated row when the filter matches one, None when it matches none.
   * The filter's id is encoded after the SET list's arguments.
   */
  function RunUpdate(
    mentorias: map<int, MentoriaRow>, assignments: seq<(Field, FieldValue)>,
    filterId: FieldValue, filterOwner: FieldValue): (r: Result<Option<MentoriaRow>, DbError>)
    ensures r.Success? && r.value.Some? ==>
      filterId.IntValue? && filterId.i in mentorias && r.value.value.id == mentorias[filterId.i].id &&
      filterOwner == TextValue(mentorias[filterId.i].mentorEmail) &&
      ExecuteSet(mentorias[filterId.i], assignments) == Success(r.value.value)
    ensures filterId.IntValue? && Int4(filterId.i) && filterId.i in mentorias &&
            filterOwner == TextValue(mentorias[filterId.i].mentorEmail) ==>
      (r.Failure? <==> ExecuteSet(mentorias[filterId.i], assignments).Failure?) &&
      (r.Failure? ==> r.error == ExecuteSet(mentorias[filterId.i], assignments).error) &&
      (r.Success? ==> r.value.Some?)
    ensures !(filterId.IntValue? && filterId.i in mentorias && filterOwner == TextValue(mentorias[filterId.i].mentorEmail)) ==>
      (r.Success? <==> FirstUndefined(assignments).None? && !AnyUnencodable(assignments) &&
                       !(filterId.IntValue? && !Int4(filterId.i)))
  {
    if FirstUndefined(assignments).Some? then Failure(UndefinedColumn(ColumnName(FirstUndefined(assignments).value)))
    else if AnyUnencodable(assignments) || (filterId.IntValue? && !Int4(filterId.i)) then Failure(IntegerOutOfRange)
    else if filterId.IntValue? && filterId.i in mentorias && filterOwner == TextValue(mentorias[filterId.i].mentorEmail) then
      match ApplyAssignments(mentorias[filterId.i], assignments)
      case Failure(e) => Failure(e)
      case Success(row) => Success(Some(row))
    else Success(None)
  }

  // ---------------------------------------------------------------------------
  // What a changeset does to a row
  // ---------------------------------------------------------------------------

  /** A duration sent with a value that does not fit the `INTEGER` column. */
  predicate DuracaoOutOfRange(u: MentoriaUpdate)
  {
    u.duracaoMinutos.Some? && u.duracaoMinutos.value.Some? && !Int4(u.duracaoMinutos.value.value)
  }

  /**
   * The error that prevents the update, if one does: unknown columns when the
   * statement is prepared, then an unencodable duration, then the first NULL
   * written into a NOT NULL column.
   */
  function Rejected(u: MentoriaUpdate): Option<DbError>
  {
    if u.titulo.Some? then Some(UndefinedColumn("titulo"))
    else if u.descricao.Some? then Some(UndefinedColumn("descricao"))
    else if DuracaoOutOfRange(u) then Some(IntegerOutOfRange)
    else if u.dataHora == Some(None) then Some(NotNullViolation("data_hora"))
    else if u.duracaoMinutos == Some(None) then Some(NotNullViolation("duracao_minutos"))
    else if u.status == Some(None) then Some(NotNullViolation("status"))
    else if u.topico == Some(None) then Some(NotNullViolation("topico"))
    else None
  }

  /** The new value of a patched column, or the old one when the field was not sent. */
  function PatchOr<T>(p: Patch<T>, old_: T): T
  {
    if p.Some? && p.value.Some? then p.value.value else old_
  }

  /**
   * The intended effect of a changeset on a row: fields sent with a value
   * replace the column (enum members by their string value), fields not sent
   * keep it; a field that is not a column, a duration outside int4, or an
   * explicit null makes the whole update fail. `id` and `mentor_email` never
   * change.
   */
  function ApplyChangeset(row: MentoriaRow, u: MentoriaUpdate): (r: Result<MentoriaRow, DbError>)
    ensures r.Success? <==> Rejected(u).None?
    ensures r.Success? ==> r.value.id == row.id && r.value.mentorEmail == row.mentorEmail
    ensures r.Success? ==> forall f :: HasColumn(f) && Dumped(u, f).None? ==> ColumnValue(r.value, f) == ColumnValue(row, f)
    ensures r.Success? ==> forall f :: HasColumn(f) && Dumped(u, f).Some? ==> ColumnValue(r.value, f) == Normalize(Dumped(u, f).value)
    ensures r.Success? && row.status in StatusCheck ==> r.value.status in StatusCheck
    ensures r.Success? && Int4(row.duracaoMinutos) ==> Int4(r.value.duracaoMinutos)
    ensures IsEmptyUpdate(u) ==> r == Success(row)
  {
    if Rejected(u).Some? then Failure(Rejected(u).value)
    else
      Success(MentoriaRow(
        row.id,
        row.mentorEmail,
        PatchOr(u.dataHora, row.dataHora),
        PatchOr(u.duracaoMinutos, row.duracaoMinutos),
        if u.status.Some? then StatusValue(u.status.value.value) else row.status,
        if u.topico.Some? then TopicValue(u.topico.value.value) else row.topico))
  }

  // ---------------------------------------------------------------------------
  // The statement the loop builds has the intended effect
  // ---------------------------------------------------------------------------

  lemma NormalizeAllAppend(a: seq<(Field, FieldValue)>, b: seq<(Field, FieldValue)>)
    ensures NormalizeAll(a + b) == NormalizeAll(a) + NormalizeAll(b)
  {
  }

  lemma {:induction false} FirstUndefinedAppend(a: seq<(Field, FieldValue)>, b: seq<(Field, FieldValue)>)
    ensures FirstUndefined(a + b) == if FirstUndefined(a).Some? then FirstUndefined(a) else FirstUndefined(b)
  {
    if a != [] {
      assert (a + b)[0] == a[0];
      assert (a + b)[1..] == a[1..] + b;
      FirstUndefinedAppend(a[1..], b);
    } else {
      assert a + b == b;
    }
  }

  lemma {:induction false} ApplyAssignmentsAppend(row: MentoriaRow, a: seq<(Field, FieldValue)>, b: seq<(Field, FieldValue)>)
    requires forall i :: 0 <= i < |a| ==> HasColumn(a[i].0)
    requires forall i :: 0 <= i < |b| ==> HasColumn(b[i].0)
    ensures forall i :: 0 <= i < |a + b| ==> HasColumn((a + b)[i].0)
    ensures ApplyAssignments(row, a + b) ==
      if ApplyAssignments(row, a).Failure? then ApplyAssignments(row, a)
      else ApplyAssignments(ApplyAssignments(row, a).value, b)
    decreases |a|
  {
    if a != [] {
      assert (a + b)[0] == a[0];
      assert (a + b)[1..] == a[1..] + b;
      match Assign(row, a[0].0, a[0].1)
      case Failure(e) =>
      case Success(next) => ApplyAssignmentsAppend(next, a[1..], b);
    } else {
      assert a + b == b;
    }
  }

  /** A dumped entry with its value normalized. */
  function NEntry(f: Field, v: Option<FieldValue>): seq<(Field, FieldValue)>
  {
    if v.Some? then [(f, Normalize(v.value))] else []
  }

  /** The normalized changeset, field by field. */
  lemma NormalizedFields(u: MentoriaUpdate)
    ensures NormalizeAll(UpdateFields(u)) ==
      NEntry(DataHora, Dumped(u, DataHora)) + (NEntry(DuracaoMinutos, Dumped(u, DuracaoMinutos)) +
      (NEntry(Status, Dumped(u, Status)) + (NEntry(Topico, Dumped(u, Topico)) +
      (NEntry(Titulo, Dumped(u, Titulo)) + NEntry(Descricao, Dumped(u, Descricao))))))
  {
    var e1 := Entry(DataHora, Dumped(u, DataHora));
    var e2 := Entry(DuracaoMinutos, Dumped(u, DuracaoMinutos));
    var e3 := Entry(Status, Dumped(u, Status));
    var e4 := Entry(Topico, Dumped(u, Topico));
    var e5 := Entry(Titulo, Dumped(u, Titulo));
    var e6 := Entry(Descricao, Dumped(u, Descricao));
    NormalizeAllAppend(e5, e6);
    NormalizeAllAppend(e4, e5 + e6);
    NormalizeAllAppend(e3, e4 + (e5 + e6));
    NormalizeAllAppend(e2, e3 + (e4 + (e5 + e6)));
    NormalizeAllAppend(e1, e2 + (e3 + (e4 + (e5 + e6))));
    forall f: Field, v: Option<FieldValue> ensures NormalizeAll(Entry(f, v)) == NEntry(f, v) {
      if v.Some? {
        assert NormalizeAll(Entry(f, v))[0] == (f, Normalize(v.value));
      }
    }
  }

  /** A singleton SET list is a single assignment. */
  lemma ApplyOne(row: MentoriaRow, f: Field, v: FieldValue)
    requires HasColumn(f)
    ensures ApplyAssignments(row, [(f, v)]) == Assign(row, f, v)
  {
    assert [(f, v)][1..] == [];
  }

  lemma ApplyDataHora(row: MentoriaRow, u: MentoriaUpdate)
    ensures ApplyAssignments(row, NEntry(DataHora, Dumped(u, DataHora))) ==
      if u.dataHora == Some(None) then Failure(NotNullViolation("data_hora"))
      else Success(row.(dataHora := PatchOr(u.dataHora, row.dataHora)))
  {
    if u.dataHora.Some? { ApplyOne(row, DataHora, Normalize(Dumped(u, DataHora).value)); }
  }

  lemma ApplyDuracao(row: MentoriaRow, u: MentoriaUpdate)
    ensures ApplyAssignments(row, NEntry(DuracaoMinutos, Dumped(u, DuracaoMinutos))) ==
      if u.duracaoMinutos == Some(None) then Failure(NotNullViolation("duracao_minutos"))
      else Success(row.(duracaoMinutos := PatchOr(u.duracaoMinutos, row.duracaoMinutos)))
  {
    if u.duracaoMinutos.Some? { ApplyOne(row, DuracaoMinutos, Normalize(Dumped(u, DuracaoMinutos).value)); }
  }

  lemma ApplyStatus(row: MentoriaRow, u: MentoriaUpdate)
    ensures ApplyAssignments(row, NEntry(Status, Dumped(u, Status))) ==
      if u.status == Some(None) then Failure(NotNullViolation("status"))
      else if u.status.Some? then Success(row.(status := StatusValue(u.status.value.value)))
      else Success(row)
  {
    if u.status.Some? { ApplyOne(row, Status, Normalize(Dumped(u, Status).value)); }
  }

  lemma ApplyTopico(row: MentoriaRow, u: MentoriaUpdate)
    ensures ApplyAssignments(row, NEntry(Topico, Dumped(u, Topico))) ==
      if u.topico == Some(None) then Failure(NotNullViolation("topico"))
      else if u.topico.Some? then Success(row.(topico := TopicValue(u.topico.value.value)))
      else Success(row)
  {
    if u.topico.Some? { ApplyOne(row, Topico, Normalize(Dumped(u, Topico).value)); }
  }

  /**
   * Only `titulo` and `descricao` name missing columns, so the statement is
   * rejected for the first of them the client sent, and for nothing else.
   */
  lemma {:induction false} UndefinedColumnOfChangeset(u: MentoriaUpdate)
    ensures FirstUndefined(NormalizeAll(UpdateFields(u))) ==
      if u.titulo.Some? then Some(Titulo) else if u.descricao.Some? then Some(Descricao) else None
  {
    var n1 := NEntry(DataHora, Dumped(u, DataHora));
    var n2 := NEntry(DuracaoMinutos, Dumped(u, DuracaoMinutos));
    var n3 := NEntry(Status, Dumped(u, Status));
    var n4 := NEntry(Topico, Dumped(u, Topico));
    var n5 := NEntry(Titulo, Dumped(u, Titulo));
    var n6 := NEntry(Descricao, Dumped(u, Descricao));
    NormalizedFields(u);
    FirstUndefinedEntry(DataHora, Dumped(u, DataHora));
    FirstUndefinedEntry(DuracaoMinutos, Dumped(u, DuracaoMinutos));
    FirstUndefinedEntry(Status, Dumped(u, Status));
    FirstUndefinedEntry(Topico, Dumped(u, Topico));
    FirstUndefinedEntry(Titulo, Dumped(u, Titulo));
    FirstUndefinedEntry(Descricao, Dumped(u, Descricao));
    FirstUndefinedAppend(n5, n6);
    FirstUndefinedAppend(n4, n5 + n6);
    FirstUndefinedAppend(n3, n4 + (n5 + n6));
    FirstUndefinedAppend(n2, n3 + (n4 + (n5 + n6)));
    FirstUndefinedAppend(n1, n2 + (n3 + (n4 + (n5 + n6))));
  }

  /** The SET list holds an argument asyncpg cannot encode exactly when the duration is out of range. */
  lemma UnencodableOfChangeset(u: MentoriaUpdate)
    ensures AnyUnencodable(NormalizeAll(UpdateFields(u))) <==> DuracaoOutOfRange(u)
  {
    var fields := UpdateFields(u);
    var s := NormalizeAll(fields);
    UpdateFieldsOrdered(u);
    if DuracaoOutOfRange(u) {
      UpdateFieldsComplete(u);
      var e := (DuracaoMinutos, Dumped(u, DuracaoMinutos).value);
      var i :| 0 <= i < |fields| && fields[i] == e;
      assert Unencodable(s[i]);
    } else {
      forall i | 0 <= i < |s| ensures !Unencodable(s[i]) {
        assert Dumped(u, fields[i].0) == Some(fields[i].1);
      }
    }
  }

  /** An entry is rejected exactly when it is present and names a missing column. */
  lemma FirstUndefinedEntry(f: Field, v: Option<FieldValue>)
    ensures FirstUndefined(NEntry(f, v)) == if v.Some? && !HasColumn(f) then Some(f) else None
  {
    if v.Some? {
      assert NEntry(f, v)[1..] == [];
    }
  }

  /**
   * Without `titulo`, `descricao` and an out-of-range duration, the four column assignments applied in
   * turn give the changeset's row, or the NULL error of the first explicit null.
   */
  lemma {:induction false} AssignmentsMeetChangeset(row: MentoriaRow, u: MentoriaUpdate)
    requires u.titulo.None? && u.descricao.None? && !DuracaoOutOfRange(u)
    ensures forall i :: 0 <= i < |NormalizeAll(UpdateFields(u))| ==> HasColumn(NormalizeAll(UpdateFields(u))[i].0)
    ensures ApplyAssignments(row, NormalizeAll(UpdateFields(u))) == ApplyChangeset(row, u)
  {
    var n1 := NEntry(DataHora, Dumped(u, DataHora));
    var n2 := NEntry(DuracaoMinutos, Dumped(u, DuracaoMinutos));
    var n3 := NEntry(Status, Dumped(u, Status));
    var n4 := NEntry(Topico, Dumped(u, Topico));
    NormalizedFields(u);
    assert NEntry(Titulo, Dumped(u, Titulo)) + NEntry(Descricao, Dumped(u, Descricao)) == [];
    assert NormalizeAll(UpdateFields(u)) == n1 + (n2 + (n3 + n4));
    ApplyAssignmentsAppend(row, n1, n2 + (n3 + n4));
    ApplyDataHora(row, u);
    if u.dataHora != Some(None) {
      var r1 := row.(dataHora := PatchOr(u.dataHora, row.dataHora));
      ApplyAssignmentsAppend(r1, n2, n3 + n4);
      ApplyDuracao(r1, u);
      if u.duracaoMinutos != Some(None) {
        var r2 := r1.(duracaoMinutos := PatchOr(u.duracaoMinutos, row.duracaoMinutos));
        ApplyAssignmentsAppend(r2, n3, n4);
        ApplyStatus(r2, u);
        if u.status != Some(None) {
          var r3 := if u.status.Some? then r2.(status := StatusValue(u.status.value.value)) else r2;
          ApplyTopico(r3, u);
        }
      }
    }
  }

  /**
   * The UPDATE statement built from the dumped changeset, run on the owner's
   * row, has exactly the effect ApplyChangeset describes: the same new row,
   * or the same error.
   */
  lemma {:induction false} UpdateStatementMeetsChangeset(row: MentoriaRow, u: MentoriaUpdate)
    ensures ExecuteSet(row, NormalizeAll(UpdateFields(u))) == ApplyChangeset(row, u)
  {
    UndefinedColumnOfChangeset(u);
    UnencodableOfChangeset(u);
    if u.titulo.None? && u.descricao.None? && !DuracaoOutOfRange(u) {
      AssignmentsMeetChangeset(row, u);
    }
  }

  // ---------------------------------------------------------------------------
  // The operations as transitions of the two tables
  // ---------------------------------------------------------------------------

  /** The owner check every write performs: the row exists and `caller` owns it. */
  predicate OwnedBy(t: Tables, id: int, caller: string)
  {
    id in t.mentorias && t.mentorias[id].mentorEmail == caller
  }

  /**
   * `create_mentoria`: a new row under the next value of the id sequence. The
   * owner is the argument, never the payload (which has no owner field); the
   * enum columns are stored as their string values. A duration outside int4
   * cannot be encoded, and a sequence past the largest `INTEGER` cannot
   * produce an id; either raises and nothing is written. The INSERT never
   * yields no row.
   */
  function Create(t: Tables, m: MentoriaCreate, owner: string): (r: (Tables, Result<MentoriaRow, DbError>))
    ensures !Int4(m.duracaoMinutos) ==> r == (t, Failure(IntegerOutOfRange))
    ensures Int4(m.duracaoMinutos) && t.nextId > Int4Max ==> r == (t, Failure(SequenceExhausted))
    ensures r.1.Success? <==> Int4(m.duracaoMinutos) && t.nextId <= Int4Max
    ensures r.1.Success? ==>
      var row := r.1.value;
      && row.id == t.nextId && row.mentorEmail == owner
      && row.dataHora == m.dataHora && row.duracaoMinutos == m.duracaoMinutos
      && ParseStatus(row.status) == Some(m.status) && ParseTopic(row.topico) == Some(m.topico)
      && r.0 == Tables(t.mentorias[t.nextId := row], t.enrollments, t.nextId + 1)
    ensures Consistent(t) && r.1.Success? ==> t.nextId !in t.mentorias
    ensures Consistent(t) ==> Consistent(r.0)
  {
    if !Int4(m.duracaoMinutos) then (t, Failure(IntegerOutOfRange))
    else if t.nextId > Int4Max then (t, Failure(SequenceExhausted))
    else
      var row := MentoriaRow(t.nextId, owner, m.dataHora, m.duracaoMinutos, StatusValue(m.status), TopicValue(m.topico));
      (Tables(t.mentorias[t.nextId := row], t.enrollments, t.nextId + 1), Success(row))
  }

  /** What `update_mentoria` returns: a row, None, or the "UNAUTHORIZED" sentinel. */
  datatype UpdateOutcome = Updated(row: MentoriaRow) | NotFound | Unauthorized

  /**
   * `update_mentoria`: an id outside int4 cannot be encoded for the owner
   * lookup and raises; None for a missing id and "UNAUTHORIZED" for another
   * mentor's row, both without writing; for the owner, the changeset's effect
   * on the row, or the error that aborts the statement with nothing written.
   */
  function Update(t: Tables, id: int, u: MentoriaUpdate, caller: string): (r: (Tables, Result<UpdateOutcome, DbError>))
    ensures !Int4(id) ==> r == (t, Failure(IntegerOutOfRange))
    ensures Int4(id) && id !in t.mentorias ==> r == (t, Success(NotFound))
    ensures Int4(id) && id in t.mentorias && t.mentorias[id].mentorEmail != caller ==> r == (t, Success(Unauthorized))
    ensures Int4(id) && OwnedBy(t, id, caller) && Rejected(u).Some? ==> r == (t, Failure(Rejected(u).value))
    ensures Int4(id) && OwnedBy(t, id, caller) && Rejected(u).None? ==>
      r.1 == Success(Updated(ApplyChangeset(t.mentorias[id], u).value)) &&
      r.0 == t.(mentorias := t.mentorias[id := r.1.value.row])
    ensures Int4(id) && OwnedBy(t, id, caller) && IsEmptyUpdate(u) ==> r == (t, Success(Updated(t.mentorias[id])))
    ensures r.0.enrollments == t.enrollments && r.0.nextId == t.nextId && r.0.mentorias.Keys == t.mentorias.Keys
    ensures Consistent(t) ==> Consistent(r.0)
  {
    if !Int4(id) then (t, Failure(IntegerOutOfRange))
    else if id !in t.mentorias then (t, Success(NotFound))
    else if t.mentorias[id].mentorEmail != caller then (t, Success(Unauthorized))
    else
      match ApplyChangeset(t.mentorias[id], u)
      case Failure(e) => (t, Failure(e))
      case Success(row) =>
        assert IsEmptyUpdate(u) ==> t.mentorias[id := row] == t.mentorias;
        (t.(mentorias := t.mentorias[id := row]), Success(Updated(row)))
  }

  /** The enrollments that survive deleting mentoria `id` (ON DELETE CASCADE). */
  function WithoutMentoria(enrollments: set<Enrollment>, id: int): (r: set<Enrollment>)
    ensures forall e :: e in r <==> e in enrollments && e.mentoriaId != id
  {
    set e | e in enrollments && e.mentoriaId != id
  }

  /**
   * `delete_mentoria`: an id outside int4 raises; otherwise true iff the row
   * exists and `caller` owns it, and then the row and, by cascade, its
   * enrollments go. False leaves everything as it was, whether the row is
   * missing or someone else's.
   */
  function Delete(t: Tables, id: int, caller: string): (r: (Tables, Result<bool, DbError>))
    ensures !Int4(id) ==> r == (t, Failure(IntegerOutOfRange))
    ensures Int4(id) ==> r.1 == Success(OwnedBy(t, id, caller))
    ensures r.1 == Success(true) ==> r.0 == Tables(t.mentorias - {id}, WithoutMentoria(t.enrollments, id), t.nextId)
    ensures r.1 != Success(true) ==> r.0 == t
    ensures Consistent(t) ==> Consistent(r.0)
  {
    if !Int4(id) then (t, Failure(IntegerOutOfRange))
    else if OwnedBy(t, id, caller) then (Tables(t.mentorias - {id}, WithoutMentoria(t.enrollments, id), t.nextId), Success(true))
    else (t, Success(false))
  }

  /**
   * `add_mentorado_to_mentoria`: an id outside int4 raises at the owner
   * lookup; for the owner, the pair is inserted unless already there (ON
   * CONFLICT DO NOTHING) and the result is whether the pair is present
   * afterwards; otherwise false and nothing changes.
   */
  function Enroll(t: Tables, id: int, email: string, caller: string): (r: (Tables, Result<bool, DbError>))
    ensures !Int4(id) ==> r == (t, Failure(IntegerOutOfRange))
    ensures Int4(id) ==> r.1 == Success(OwnedBy(t, id, caller))
    ensures r.1 == Success(true) ==> r.0 == t.(enrollments := t.enrollments + {Enrollment(id, email)})
    ensures r.1 != Success(true) ==> r.0 == t
    ensures Consistent(t) ==> Consistent(r.0)
  {
    if !Int4(id) then (t, Failure(IntegerOutOfRange))
    else if !OwnedBy(t, id, caller) then (t, Success(false))
    else
      var t' := if Enrollment(id, email) in t.enrollments then t
                else t.(enrollments := t.enrollments + {Enrollment(id, email)});
      (t', Success(Enrollment(id, email) in t'.enrollments))
  }

  /** Enrolling the same mentee twice is the same as enrolling it once. */
  lemma EnrollIdempotent(t: Tables, id: int, email: string, caller: string)
    ensures Enroll(Enroll(t, id, email, caller).0, id, email, caller) == Enroll(t, id, email, caller)
  {
  }

  /**
   * `remove_mentorado_from_mentoria`: an id outside int4 raises at the owner
   * lookup; for the owner, the pair is gone afterwards and the result says
   * whether it was there; for anyone else, false and nothing changes.
   */
  function Unenroll(t: Tables, id: int, email: string, caller: string): (r: (Tables, Result<bool, DbError>))
    ensures !Int4(id) ==> r == (t, Failure(IntegerOutOfRange))
    ensures Int4(id) ==> r.1 == Success(OwnedBy(t, id, caller) && Enrollment(id, email) in t.enrollments)
    ensures Int4(id) && OwnedBy(t, id, caller) ==> r.0 == t.(enrollments := t.enrollments - {Enrollment(id, email)})
    ensures !(Int4(id) && OwnedBy(t, id, caller)) ==> r.0 == t
    ensures Consistent(t) ==> Consistent(r.0)
  {
    if !Int4(id) then (t, Failure(IntegerOutOfRange))
    else if !OwnedBy(t, id, caller) then (t, Success(false))
    else (t.(enrollments := t.enrollments - {Enrollment(id, email)}), Success(Enrollment(id, email) in t.enrollments))
  }

  // ---------------------------------------------------------------------------
  // Listing helpers
  // ---------------------------------------------------------------------------

  /** No element occurs twice. */
  predicate Distinct<T(==)>(s: seq<T>)
  {
    forall i, j :: 0 <= i < j < |s| ==> s[i] != s[j]
  }

  /** `ORDER BY data_hora DESC`: later sessions first. */
  predicate DateDescending(s: seq<MentoriaRow>)
  {
    forall i, j :: 0 <= i < j < |s| ==> s[i].dataHora >= s[j].dataHora
  }

  /** A row placed into a date-descending list at its place. */
  function InsertByDate(s: seq<MentoriaRow>, x: MentoriaRow): (r: seq<MentoriaRow>)
    requires DateDescending(s)
    ensures DateDescending(r)
    ensures |r| == |s| + 1
    ensures forall y :: y in r <==> y == x || y in s
    ensures multiset(r) == multiset(s) + multiset{x}
  {
    if s == [] then [x]
    else if x.dataHora >= s[0].dataHora then [x] + s
    else
      var rest := InsertByDate(s[1..], x);
      assert forall y :: y in rest ==> y.dataHora <= s[0].dataHora;
      assert s == [s[0]] + s[1..];
      [s[0]] + rest
  }

  /** Inserting a new row into a list without repeats keeps it without repeats. */
  lemma {:induction false} InsertByDateDistinct(s: seq<MentoriaRow>, x: MentoriaRow)
    requires DateDescending(s) && Distinct(s) && x !in s
    ensures Distinct(InsertByDate(s, x))
  {
    if s != [] && x.dataHora < s[0].dataHora {
      var rest := InsertByDate(s[1..], x);
      InsertByDateDistinct(s[1..], x);
      forall k | 0 <= k < |s| - 1 ensures s[1..][k] != s[0] {
        assert s[1..][k] == s[k + 1];
      }
      assert s[0] !in s[1..];
      assert s[0] !in rest;
      var r := [s[0]] + rest;
      forall i, j | 0 <= i < j < |r| ensures r[i] != r[j] {
        assert r[j] == rest[j - 1] && rest[j - 1] in rest;
        if i > 0 {
          assert r[i] == rest[i - 1];
        }
      }
    }
  }

  // ---------------------------------------------------------------------------
  // The store
  // ---------------------------------------------------------------------------

  /** Both tables held in memory; every write goes through the owner check. */
  class MentoriaStore {
    var mentorias: map<int, MentoriaRow>
    var enrollments: set<Enrollment>
    var nextId: int

    /** The tables as a value. */
    function State(): Tables
      reads this
    {
      Tables(mentorias, enrollments, nextId)
    }

    /** The DDL's constraints hold. */
    ghost predicate Valid()
      reads this
    {
      Consistent(State())
    }

    /** Freshly created tables: empty, the id sequence at 1. */
    constructor ()
      ensures Valid() && mentorias == map[] && enrollments == {} && nextId == 1
    {
      mentorias, enrollments, nextId := map[], {}, 1;
    }

    /**
     * `create_mentoria`: INSERT ... RETURNING, which yields a row or raises, never
     * nothing. The duration is encoded before the sequence is asked for an id.
     */
    method CreateMentoria(m: MentoriaCreate, mentorEmail: string) returns (r: Result<MentoriaRow, DbError>)
      requires Valid()
      modifies this
      ensures Valid()
      ensures (State(), r) == Create(old(State()), m, mentorEmail)
    {
      if !Int4(m.duracaoMinutos) {
        return Failure(IntegerOutOfRange);
      }
      if nextId > Int4Max {
        return Failure(SequenceExhausted);
      }
      var row := MentoriaRow(nextId, mentorEmail, m.dataHora, m.duracaoMinutos, StatusValue(m.status), TopicValue(m.topico));
      mentorias := mentorias[nextId := row];
      nextId := nextId + 1;
      r := Success(row);
    }

    /**
     * `get_mentorias_by_mentor`: exactly the stored rows of mentor `email`, each once,
     * later sessions first. Rows of equal `data_hora` come in no promised order.
     */
    method GetMentoriasByMentor(email: string) returns (rows: seq<MentoriaRow>)
      requires Valid()
      ensures forall row :: row in rows <==> row.id in mentorias && mentorias[row.id] == row && row.mentorEmail == email
      ensures Distinct(rows)
      ensures DateDescending(rows)
    {
      rows := [];
      for i := 1 to nextId
        invariant forall row :: row in rows ==>
          row.id in mentorias && row.id < i && mentorias[row.id] == row && row.mentorEmail == email
        invariant forall id :: id in mentorias && id < i && mentorias[id].mentorEmail == email ==>
          mentorias[id] in rows
        invariant Distinct(rows)
        invariant DateDescending(rows)
      {
        if i in mentorias && mentorias[i].mentorEmail == email {
          InsertByDateDistinct(rows, mentorias[i]);
          rows := InsertByDate(rows, mentorias[i]);
        }
      }
    }

    /** `get_mentoria_by_id`: an id outside int4 raises; otherwise the row under `id`, or None. */
    method GetMentoriaById(id: int) returns (r: Result<Option<MentoriaRow>, DbError>)
      ensures r.Failure? <==> !Int4(id)
      ensures r.Failure? ==> r.error == IntegerOutOfRange
      ensures r.Success? ==> (r.value.Some? <==> id in mentorias)
      ensures r.Success? && r.value.Some? ==> r.value.value == mentorias[id]
    {
      if !Int4(id) {
        r := Failure(IntegerOutOfRange);
      } else if id in mentorias {
        r := Success(Some(mentorias[id]));
      } else {
        r := Success(None);
      }
    }

    /**
     * `update_mentoria`: the owner check, then the empty-changeset shortcut, then
     * the SET list built by the loop and run under a filter that repeats the
     * owner predicate. Its effect is the changeset's intended effect.
     */
    method UpdateMentoria(id: int, u: MentoriaUpdate, caller: string) returns (r: Result<UpdateOutcome, DbError>)
      requires Valid()
      modifies this
      ensures Valid()
      ensures (State(), r) == Update(old(State()), id, u, caller)
    {
      if !Int4(id) {
        return Failure(IntegerOutOfRange);
      }
      if id !in mentorias {
        return Success(NotFound);
      }
      if mentorias[id].mentorEmail != caller {
        return Success(Unauthorized);
      }
      var fields := UpdateFields(u);
      UpdateFieldsEmpty(u);
      if fields == [] {
        return Success(Updated(mentorias[id]));
      }
      var clauses, values, paramIdx := BuildSetClauses(fields, id, caller);
      var assignments := Resolve(clauses, values);
      UpdateStatementMeetsChangeset(mentorias[id], u);
      var outcome := RunUpdate(mentorias, assignments, Bind(values, paramIdx), Bind(values, paramIdx + 1));
      if outcome.Failure? {
        r := Failure(outcome.error);
      } else {
        var row := outcome.value.value;
        mentorias := mentorias[id := row];
        r := Success(Updated(row));
      }
    }

    /** `delete_mentoria`: DELETE ... WHERE id AND owner; the cascade takes the enrollments. */
    method DeleteMentoria(id: int, caller: string) returns (r: Result<bool, DbError>)
      requires Valid()
      modifies this
      ensures Valid()
      ensures (State(), r) == Delete(old(State()), id, caller)
    {
      if !Int4(id) {
        return Failure(IntegerOutOfRange);
      }
      var deleted := id in mentorias && mentorias[id].mentorEmail == caller;
      if deleted {
        mentorias := mentorias - {id};
        enrollments := WithoutMentoria(enrollments, id);
      }
      r := Success(deleted);
    }

    /** `add_mentorado_to_mentoria`: owner check, insert-if-absent, then read the pair back. */
    method AddMentorado(id: int, email: MentoradoEmail, caller: string) returns (r: Result<bool, DbError>)
      requires Valid()
      modifies this
      ensures Valid()
      ensures (State(), r) == Enroll(old(State()), id, email.mentoradoEmail, caller)
    {
      if !Int4(id) {
        return Failure(IntegerOutOfRange);
      }
      if id !in mentorias || mentorias[id].mentorEmail != caller {
        return Success(false);
      }
      var pair := Enrollment(id, email.mentoradoEmail);
      if pair !in enrollments {
        enrollments := enrollments + {pair};
      }
      r := Success(pair in enrollments);
    }

    /** `remove_mentorado_from_mentoria`: owner check, then DELETE ... RETURNING of the one pair. */
    method RemoveMentorado(id: int, email: MentoradoEmail, caller: string) returns (r: Result<bool, DbError>)
      requires Valid()
      modifies this
      ensures Valid()
      ensures (State(), r) == Unenroll(old(State()), id, email.mentoradoEmail, caller)
    {
      if !Int4(id) {
        return Failure(IntegerOutOfRange);
      }
      if id !in mentorias || mentorias[id].mentorEmail != caller {
        return Success(false);
      }
      var pair := Enrollment(id, email.mentoradoEmail);
      r := Success(pair in enrollments);
      enrollments := enrollments - {pair};
    }

    /**
     * `get_mentorados_for_mentoria`: an id outside int4 raises; None when the mentoria does
     * not exist; otherwise every enrolled email once, in no promised order,
     * possibly none.
     */
    method GetMentoradosForMentoria(id: int) returns (r: Result<Option<seq<string>>, DbError>)
      ensures r.Failure? <==> !Int4(id)
      ensures r.Failure? ==> r.error == IntegerOutOfRange
      ensures r.Success? ==> (r.value.None? <==> id !in mentorias)
      ensures r.Success? && r.value.Some? ==> forall e :: e in r.value.value <==> Enrollment(id, e) in enrollments
      ensures r.Success? && r.value.Some? ==> Distinct(r.value.value)
    {
      if !Int4(id) {
        return Failure(IntegerOutOfRange);
      }
      if id !in mentorias {
        return Success(None);
      }
      var emails: seq<string> := [];
      var pending := enrollments;
      while pending != {}
        invariant pending <= enrollments
        invariant forall e :: e in emails <==> Enrollment(id, e) in enrollments && Enrollment(id, e) !in pending
        invariant Distinct(emails)
        decreases |pending|
      {
        var en :| en in pending;
        if en.mentoriaId == id {
          emails := emails + [en.mentoradoEmail];
        }
        pending := pending - {en};
      }
      r := Success(Some(emails));
    }
  }
}
