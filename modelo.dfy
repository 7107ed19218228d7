/** The rows of the hospital database: beds (`leitos`), the patients they
    reference (`pacientes`) and the audit trail (`auditoria_leitos`), together
    with the constraints the schema and the service keep on them. */
module Modelo {

  datatype Option<+T> = None | Some(value: T)

  /** The `status` column of a bed. */
  datatype Status = LIVRE | OCUPADO | MANUTENCAO

  /** The `tipo` column of a bed. */
  datatype Tipo = UTI | QUARTO | ENFERMARIA

  /** A row of `leitos`. Its `id` is the key under which the store keeps it;
      `pacienteId` is the nullable foreign key to `pacientes`. */
  datatype Leito = Leito(codigo: string, tipo: Tipo, status: Status, pacienteId: Option<int>)

  /** A row of `pacientes`. */
  datatype Paciente = Paciente(id: int, nome: string, cpf: string)

  /** The `acao` column of an audit row. */
  datatype Acao = OCUPAR | LIBERAR | TRANSFERIR

  /** A row of `auditoria_leitos`; both references are nullable. */
  datatype Auditoria = Auditoria(leitoId: Option<int>, pacienteId: Option<int>, acao: Acao, detalhes: string)

  /** A bed may receive a patient only when it has none and its status is LIVRE. */
  predicate Disponivel(l: Leito) {
    l.pacienteId.None? && l.status == LIVRE
  }

  /** A bed holds a patient exactly when its status is OCUPADO. */
  predicate Coerente(l: Leito) {
    l.pacienteId.Some? <==> l.status == OCUPADO
  }

  /** A bed as the schema creates it when only its code, and possibly its kind,
      is given: the defaults are ENFERMARIA, LIVRE and no patient. */
  function NovoLeito(codigo: string, tipo: Tipo := ENFERMARIA): (l: Leito)
    ensures l.codigo == codigo && l.tipo == tipo
    ensures Disponivel(l) && Coerente(l)
  {
    Leito(codigo, tipo, LIVRE, None)
  }

  /** `codigo` is unique across beds. */
  predicate CodigosUnicos(leitos: map<int, Leito>) {
    forall i, j | i in leitos && j in leitos && i != j :: leitos[i].codigo != leitos[j].codigo
  }

  /** `paciente_id` is unique where it is not null: no patient is on two beds. */
  predicate OcupantesUnicos(leitos: map<int, Leito>) {
    forall i, j | i in leitos && j in leitos && i != j && leitos[i].pacienteId.Some? ::
      leitos[i].pacienteId != leitos[j].pacienteId
  }

  /** Every constraint on the bed table: per-bed coherence and both uniqueness constraints. */
  predicate LeitosValidos(leitos: map<int, Leito>) {
    && (forall i | i in leitos :: Coerente(leitos[i]))
    && CodigosUnicos(leitos)
    && OcupantesUnicos(leitos)
  }

  /** Some bed holds patient `p`. */
  predicate Internado(leitos: map<int, Leito>, p: int) {
    exists i | i in leitos :: leitos[i].pacienteId == Some(p)
  }

  predicate PacienteExiste(pacientes: seq<Paciente>, id: int) {
    exists i | 0 <= i < |pacientes| :: pacientes[i].id == id
  }

  /** Patient ids are a primary key filled by auto-increment: distinct and positive. */
  predicate PacientesValidos(pacientes: seq<Paciente>) {
    && (forall i | 0 <= i < |pacientes| :: pacientes[i].id >= 1)
    && (forall i, j | 0 <= i < j < |pacientes| :: pacientes[i].id != pacientes[j].id)
  }

  /** Adding a freshly created bed, under a new id and a new code, keeps the
      bed table valid. */
  lemma NovoLeitoPreservaValidos(leitos: map<int, Leito>, id: int, codigo: string, tipo: Tipo)
    requires LeitosValidos(leitos)
    requires id !in leitos
    requires forall k | k in leitos :: leitos[k].codigo != codigo
    ensures LeitosValidos(leitos[id := NovoLeito(codigo, tipo)])
  {
  }
}
