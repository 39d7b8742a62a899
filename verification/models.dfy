/**
 * The closed enumerations and the record shapes of the mentorship service:
 * session status, session topic, user type, the creation payload, the
 * partial-update changeset and the decoded-token principal.
 */
module Models {
  import opened Wrappers

  /** Lifecycle state of a mentorship session; stored as its string value. */
  datatype MentoriaStatus = Agendada | Concluida | Cancelada | Disponivel

  /** Subject area of a mentorship session; stored as its string value. */
  datatype MentoriaTopic = Carreiras | Liderancas | Financeiro | Negocios

  /** Role carried in the `type` claim of a bearer token. */
  datatype UserType = Mentor | Mentorado | Admin

  const StatusValues: set<string> := {"agendada", "concluída", "cancelada", "disponível"}
  const TopicValues: set<string> := {"carreiras", "lideranças", "financeiro", "negócios"}
  const UserTypeValues: set<string> := {"Mentor", "Mentorado", "Admin"}

  /** The string value of a status member (`MentoriaStatus.X.value`). */
  function StatusValue(s: MentoriaStatus): (v: string)
    ensures v in StatusValues
  {
    match s
    case Agendada => "agendada"
    case Concluida => "concluída"
    case Cancelada => "cancelada"
    case Disponivel => "disponível"
  }

  /** `MentoriaStatus(v)`: the member whose value is `v`, or None for any other string. */
  function ParseStatus(v: string): (r: Option<MentoriaStatus>)
    ensures r.Some? <==> v in StatusValues
    ensures r.Some? ==> StatusValue(r.value) == v
    ensures forall s :: StatusValue(s) == v ==> r == Some(s)
  {
    if v == "agendada" then Some(Agendada)
    else if v == "concluída" then Some(Concluida)
    else if v == "cancelada" then Some(Cancelada)
    else if v == "disponível" then Some(Disponivel)
    else None
  }

  /** The string value of a topic member (`MentoriaTopic.X.value`). */
  function TopicValue(t: MentoriaTopic): (v: string)
    ensures v in TopicValues
  {
    match t
    case Carreiras => "carreiras"
    case Liderancas => "lideranças"
    case Financeiro => "financeiro"
    case Negocios => "negócios"
  }

  /** `MentoriaTopic(v)`: the member whose value is `v`, or None. */
  function ParseTopic(v: string): (r: Option<MentoriaTopic>)
    ensures r.Some? <==> v in TopicValues
    ensures r.Some? ==> TopicValue(r.value) == v
    ensures forall t :: TopicValue(t) == v ==> r == Some(t)
  {
    if v == "carreiras" then Some(Carreiras)
    else if v == "lideranças" then Some(Liderancas)
    else if v == "financeiro" then Some(Financeiro)
    else if v == "negócios" then Some(Negocios)
    else None
  }

  /** The string value of a user type (`UserType.X.value`). */
  function UserTypeValue(u: UserType): (v: string)
    ensures v in UserTypeValues
  {
    match u
    case Mentor => "Mentor"
    case Mentorado => "Mentorado"
    case Admin => "Admin"
  }

  /** `UserType(v)`: the member whose value is `v`, or None (Python raises ValueError). */
  function ParseUserType(v: string): (r: Option<UserType>)
    ensures r.Some? <==> v in UserTypeValues
    ensures r.Some? ==> UserTypeValue(r.value) == v
    ensures forall u :: UserTypeValue(u) == v ==> r == Some(u)
  {
    if v == "Mentor" then Some(Mentor)
    else if v == "Mentorado" then Some(Mentorado)
    else if v == "Admin" then Some(Admin)
    else None
  }

  /**
   * The creation payload (MentoriaBase, unchanged by MentoriaCreate).
   * There is no owner and no id: both come from elsewhere.
   * `dataHora` is a timestamp, modelled as an integer.
   */
  datatype MentoriaCreate = MentoriaCreate(
    dataHora: int,
    duracaoMinutos: int,
    status: MentoriaStatus,
    topico: MentoriaTopic,
    titulo: string,
    descricao: Option<string>)

  /**
   * One changeset field as pydantic sees it: None when the client did not
   * send the field, Some(None) when it sent an explicit null, Some(Some(v))
   * when it sent a value.
   */
  type Patch<T> = Option<Option<T>>

  /**
   * The partial-update changeset. Every field may be left unset; there is
   * no `id` and no `mentor_email` field.
   */
  datatype MentoriaUpdate = MentoriaUpdate(
    dataHora: Patch<int>,
    duracaoMinutos: Patch<int>,
    status: Patch<MentoriaStatus>,
    topico: Patch<MentoriaTopic>,
    titulo: Patch<string>,
    descricao: Patch<string>)

  /** The changeset's field names, in declaration order. */
  datatype Field = DataHora | DuracaoMinutos | Status | Topico | Titulo | Descricao

  /** Position of a field in the declaration of MentoriaUpdate. */
  function FieldIndex(f: Field): nat
  {
    match f
    case DataHora => 0
    case DuracaoMinutos => 1
    case Status => 2
    case Topico => 3
    case Titulo => 4
    case Descricao => 5
  }

  /** A value as it appears in the dumped changeset dictionary. */
  datatype FieldValue =
    | IntValue(i: int)
    | TextValue(s: string)
    | StatusMember(st: MentoriaStatus)
    | TopicMember(tp: MentoriaTopic)
    | NullValue

  function DumpInt(p: Patch<int>): Option<FieldValue>
  {
    match p
    case None => None
    case Some(None) => Some(NullValue)
    case Some(Some(v)) => Some(IntValue(v))
  }

  function DumpText(p: Patch<string>): Option<FieldValue>
  {
    match p
    case None => None
    case Some(None) => Some(NullValue)
    case Some(Some(v)) => Some(TextValue(v))
  }

  function DumpStatus(p: Patch<MentoriaStatus>): Option<FieldValue>
  {
    match p
    case None => None
    case Some(None) => Some(NullValue)
    case Some(Some(v)) => Some(StatusMember(v))
  }

  function DumpTopic(p: Patch<MentoriaTopic>): Option<FieldValue>
  {
    match p
    case None => None
    case Some(None) => Some(NullValue)
    case Some(Some(v)) => Some(TopicMember(v))
  }

  /** What `model_dump(exclude_unset=True)` holds under field `f`, if anything. */
  function Dumped(u: MentoriaUpdate, f: Field): Option<FieldValue>
  {
    match f
    case DataHora => DumpInt(u.dataHora)
    case DuracaoMinutos => DumpInt(u.duracaoMinutos)
    case Status => DumpStatus(u.status)
    case Topico => DumpTopic(u.topico)
    case Titulo => DumpText(u.titulo)
    case Descricao => DumpText(u.descricao)
  }

  /** True when the client sent no field at all. */
  predicate IsEmptyUpdate(u: MentoriaUpdate)
  {
    u.dataHora.None? && u.duracaoMinutos.None? && u.status.None? &&
    u.topico.None? && u.titulo.None? && u.descricao.None?
  }

  /** The dumped entry of one field: empty when the field is unset. */
  function Entry(f: Field, v: Option<FieldValue>): seq<(Field, FieldValue)>
  {
    if v.Some? then [(f, v.value)] else []
  }

  /**
   * `model_dump(exclude_unset=True).items()`: the fields the client sent,
   * explicit nulls included, in declaration order.
   */
  function UpdateFields(u: MentoriaUpdate): seq<(Field, FieldValue)>
  {
    Entry(DataHora, Dumped(u, DataHora)) + (Entry(DuracaoMinutos, Dumped(u, DuracaoMinutos)) +
    (Entry(Status, Dumped(u, Status)) + (Entry(Topico, Dumped(u, Topico)) +
    (Entry(Titulo, Dumped(u, Titulo)) + Entry(Descricao, Dumped(u, Descricao))))))
  }

  /** Keys strictly increase in declaration order: no field twice, none out of order. */
  predicate AscendingKeys(s: seq<(Field, FieldValue)>)
  {
    forall i, j :: 0 <= i < j < |s| ==> FieldIndex(s[i].0) < FieldIndex(s[j].0)
  }

  /** Every key is declared at position `n` or later. */
  predicate KeysFrom(s: seq<(Field, FieldValue)>, n: nat)
  {
    forall i :: 0 <= i < |s| ==> n <= FieldIndex(s[i].0)
  }

  /** Every entry carries the value the changeset holds for its key. */
  predicate AgreesWith(s: seq<(Field, FieldValue)>, u: MentoriaUpdate)
  {
    forall i :: 0 <= i < |s| ==> Dumped(u, s[i].0) == Some(s[i].1)
  }

  lemma PrependEntry(u: MentoriaUpdate, f: Field, b: seq<(Field, FieldValue)>)
    requires AscendingKeys(b) && KeysFrom(b, FieldIndex(f) + 1) && AgreesWith(b, u)
    ensures AscendingKeys(Entry(f, Dumped(u, f)) + b)
    ensures KeysFrom(Entry(f, Dumped(u, f)) + b, FieldIndex(f))
    ensures AgreesWith(Entry(f, Dumped(u, f)) + b, u)
  {
    var s := Entry(f, Dumped(u, f)) + b;
    if Dumped(u, f).Some? {
      forall i | 1 <= i < |s| ensures s[i] == b[i - 1] {}
    } else {
      assert s == b;
    }
  }

  /**
   * The dumped changeset holds only fields the client sent, each with the
   * value sent, each once and in declaration order.
   */
  lemma {:induction false} UpdateFieldsOrdered(u: MentoriaUpdate)
    ensures AgreesWith(UpdateFields(u), u)
    ensures AscendingKeys(UpdateFields(u))
  {
    var e6 := Entry(Descricao, Dumped(u, Descricao));
    PrependEntry(u, Descricao, []);
    assert e6 + [] == e6;
    var e5 := Entry(Titulo, Dumped(u, Titulo)) + e6;
    PrependEntry(u, Titulo, e6);
    var e4 := Entry(Topico, Dumped(u, Topico)) + e5;
    PrependEntry(u, Topico, e5);
    var e3 := Entry(Status, Dumped(u, Status)) + e4;
    PrependEntry(u, Status, e4);
    var e2 := Entry(DuracaoMinutos, Dumped(u, DuracaoMinutos)) + e3;
    PrependEntry(u, DuracaoMinutos, e3);
    PrependEntry(u, DataHora, e2);
  }

  /** Every field the client sent, explicit nulls included, is in the dumped changeset. */
  lemma UpdateFieldsComplete(u: MentoriaUpdate)
    ensures forall f :: Dumped(u, f).Some? ==> (f, Dumped(u, f).value) in UpdateFields(u)
  {
    forall f | Dumped(u, f).Some? ensures (f, Dumped(u, f).value) in UpdateFields(u) {
      assert (f, Dumped(u, f).value) in Entry(f, Dumped(u, f));
    }
  }

  /** The dumped changeset is empty exactly when the client sent no field. */
  lemma UpdateFieldsEmpty(u: MentoriaUpdate)
    ensures UpdateFields(u) == [] <==> IsEmptyUpdate(u)
  {
    if !IsEmptyUpdate(u) {
      var f := if u.dataHora.Some? then DataHora else if u.duracaoMinutos.Some? then DuracaoMinutos
        else if u.status.Some? then Status else if u.topico.Some? then Topico
        else if u.titulo.Some? then Titulo else Descricao;
      UpdateFieldsComplete(u);
      assert (f, Dumped(u, f).value) in UpdateFields(u);
    }
  }

  /** The request body of the enrollment endpoints, holding the address as `EmailStr` normalized it. */
  datatype MentoradoEmail = MentoradoEmail(mentoradoEmail: string)

  /**
   * The principal decoded from a bearer token. Only `GetCurrentUser` builds
   * one; `username` is the address `EmailStr` validated and normalized.
   */
  datatype TokenData = TokenData(username: string, userType: UserType)
}
