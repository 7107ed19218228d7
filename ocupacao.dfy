/** The bed-occupancy rules of the service: admitting a patient to a bed,
    freeing a bed, transferring a patient between beds, and finding a patient's
    bed by CPF. Each is a function of the whole database state, returning the
    new state and the outcome; the service class runs them in place. */
module Ocupacao {
  import opened Modelo

  /** The service's business errors, plus NotFound for a bed id with no row. */
  datatype Erro = NotFound | Indisponivel | PacienteJaInternado | SemPacienteNaOrigem | DestinoOcupado | PacienteNaoEncontrado

  datatype Result<+T> = Ok(value: T) | Err(erro: Erro)

  /** What the CPF lookup answers for a patient it found. */
  datatype Consulta = NaoInternado | Localizado(paciente: string, leito: string, tipo: Tipo, status: Status)

  const MensagemNaoInternado: string := "O paciente não está internado no momento."

  /** The three tables: beds by id, patients in table order, audit rows in insertion order. */
  datatype Banco = Banco(leitos: map<int, Leito>, pacientes: seq<Paciente>, auditoria: seq<Auditoria>)

  /** The invariant of the store: the bed table's constraints, valid patient ids,
      and every occupant an existing patient. */
  predicate Valido(b: Banco) {
    && LeitosValidos(b.leitos)
    && PacientesValidos(b.pacientes)
    && forall i | i in b.leitos && b.leitos[i].pacienteId.Some? :: PacienteExiste(b.pacientes, b.leitos[i].pacienteId.value)
  }

  /** `b2` is `b1` with bed `id` replaced by `l` and one row `a` appended to the audit trail. */
  predicate UmPasso(b1: Banco, b2: Banco, id: int, l: Leito, a: Auditoria) {
    && id in b1.leitos
    && b2.leitos == b1.leitos[id := l]
    && b2.pacientes == b1.pacientes
    && b2.auditoria == b1.auditoria + [a]
  }

  /** Appends one audit row; nothing else changes. */
  function Registrar(b: Banco, leitoId: Option<int>, pacienteId: Option<int>, acao: Acao, detalhes: string): (r: Banco)
    ensures r.leitos == b.leitos && r.pacientes == b.pacientes
    ensures |r.auditoria| == |b.auditoria| + 1 && r.auditoria[..|b.auditoria|] == b.auditoria
    ensures r.auditoria[|b.auditoria|] == Auditoria(leitoId, pacienteId, acao, detalhes)
  {
    b.(auditoria := b.auditoria + [Auditoria(leitoId, pacienteId, acao, detalhes)])
  }

  /** Admits patient `idPaciente` to bed `idLeito`. */
  function Ocupar(b: Banco, idLeito: int, idPaciente: int): (r: (Banco, Result<()>))
    ensures r.1 == Err(NotFound) <==> idLeito !in b.leitos
    ensures r.1 == Err(Indisponivel) <==> idLeito in b.leitos && !Disponivel(b.leitos[idLeito])
    ensures r.1 == Err(PacienteJaInternado) <==>
      idLeito in b.leitos && Disponivel(b.leitos[idLeito]) && Internado(b.leitos, idPaciente)
    ensures r.1.Err? ==> r.1.erro in {NotFound, Indisponivel, PacienteJaInternado} && r.0 == b
    ensures r.1.Ok? ==>
      var l := b.leitos[idLeito];
      UmPasso(b, r.0, idLeito, Leito(l.codigo, l.tipo, OCUPADO, Some(idPaciente)),
              Auditoria(Some(idLeito), Some(idPaciente), OCUPAR, "Paciente internado no leito " + l.codigo))
  {
    if idLeito !in b.leitos then (b, Err(NotFound))
    else
      var leito := b.leitos[idLeito];
      if leito.pacienteId.Some? || leito.status != LIVRE then (b, Err(Indisponivel))
      else if Internado(b.leitos, idPaciente) then (b, Err(PacienteJaInternado))
      else
        var ocupado := leito.(pacienteId := Some(idPaciente), status := OCUPADO);
        var b' := b.(leitos := b.leitos[idLeito := ocupado]);
        (Registrar(b', Some(idLeito), Some(idPaciente), OCUPAR, "Paciente internado no leito " + leito.codigo), Ok(()))
  }

  /** Frees bed `idLeito`, whatever its status, recording its previous occupant. */
  function Liberar(b: Banco, idLeito: int): (r: (Banco, Result<()>))
    ensures r.1.Err? <==> idLeito !in b.leitos
    ensures r.1.Err? ==> r == (b, Err(NotFound))
    ensures r.1.Ok? ==>
      var l := b.leitos[idLeito];
      UmPasso(b, r.0, idLeito, Leito(l.codigo, l.tipo, LIVRE, None),
              Auditoria(Some(idLeito), l.pacienteId, LIBERAR, "Leito " + l.codigo + " liberado"))
  {
    if idLeito !in b.leitos then (b, Err(NotFound))
    else
      var leito := b.leitos[idLeito];
      var pacienteId := leito.pacienteId;
      var livre := leito.(pacienteId := None, status := LIVRE);
      var b' := b.(leitos := b.leitos[idLeito := livre]);
      (Registrar(b', Some(idLeito), pacienteId, LIBERAR, "Leito " + leito.codigo + " liberado"), Ok(()))
  }

  /** Moves the patient on bed `idAtual` to bed `idDestino`. Only the origin's
      occupant is checked, not its status. */
  function Transferir(b: Banco, idAtual: int, idDestino: int): (r: (Banco, Result<()>))
    ensures r.1 == Err(NotFound) <==> idAtual !in b.leitos || idDestino !in b.leitos
    ensures r.1 == Err(SemPacienteNaOrigem) <==>
      idAtual in b.leitos && idDestino in b.leitos && b.leitos[idAtual].pacienteId.None?
    ensures r.1 == Err(DestinoOcupado) <==>
      idAtual in b.leitos && idDestino in b.leitos && b.leitos[idAtual].pacienteId.Some? &&
      !Disponivel(b.leitos[idDestino])
    ensures r.1.Err? ==> r.1.erro in {NotFound, SemPacienteNaOrigem, DestinoOcupado} && r.0 == b
    ensures r.1.Ok? ==>
      var a := b.leitos[idAtual];
      var d := b.leitos[idDestino];
      && idAtual != idDestino
      && r.0.leitos == b.leitos[idAtual := Leito(a.codigo, a.tipo, LIVRE, None)]
                               [idDestino := Leito(d.codigo, d.tipo, OCUPADO, a.pacienteId)]
      && r.0.pacientes == b.pacientes
      && r.0.auditoria == b.auditoria +
           [Auditoria(Some(idDestino), a.pacienteId, TRANSFERIR,
                      "Paciente transferido do leito " + a.codigo + " para " + d.codigo)]
  {
    if idAtual !in b.leitos || idDestino !in b.leitos then (b, Err(NotFound))
    else
      var atual := b.leitos[idAtual];
      var destino := b.leitos[idDestino];
      if atual.pacienteId.None? then (b, Err(SemPacienteNaOrigem))
      else if destino.pacienteId.Some? || destino.status != LIVRE then (b, Err(DestinoOcupado))
      else
        var pacienteId := atual.pacienteId;
        var leitos := b.leitos[idAtual := atual.(pacienteId := None, status := LIVRE)]
                              [idDestino := destino.(pacienteId := pacienteId, status := OCUPADO)];
        var b' := b.(leitos := leitos);
        (Registrar(b', Some(idDestino), pacienteId, TRANSFERIR,
                   "Paciente transferido do leito " + atual.codigo + " para " + destino.codigo), Ok(()))
  }

  /** `i` is the first patient row whose CPF is `cpf`. */
  predicate PrimeiroComCpf(pacientes: seq<Paciente>, cpf: string, i: int) {
    && 0 <= i < |pacientes|
    && pacientes[i].cpf == cpf
    && forall j | 0 <= j < i :: pacientes[j].cpf != cpf
  }

  /** The index of the first patient row with CPF `cpf`, searching from `desde`. */
  function IndiceCpf(pacientes: seq<Paciente>, cpf: string, desde: nat := 0): (r: Option<nat>)
    requires desde <= |pacientes|
    requires forall j | 0 <= j < desde :: pacientes[j].cpf != cpf
    ensures r.None? <==> forall j | 0 <= j < |pacientes| :: pacientes[j].cpf != cpf
    ensures r.Some? ==> PrimeiroComCpf(pacientes, cpf, r.value)
    decreases |pacientes| - desde
  {
    if desde == |pacientes| then None
    else if pacientes[desde].cpf == cpf then Some(desde)
    else IndiceCpf(pacientes, cpf, desde + 1)
  }

  /** The id of the bed that holds patient `p`, if any; it is unique when
      occupants are unique. */
  function LeitoDe(leitos: map<int, Leito>, p: int): (r: Option<int>)
    requires OcupantesUnicos(leitos)
    ensures r.None? <==> !Internado(leitos, p)
    ensures r.Some? ==> r.value in leitos && leitos[r.value].pacienteId == Some(p)
  {
    if Internado(leitos, p) then
      var id :| id in leitos && leitos[id].pacienteId == Some(p);
      Some(id)
    else None
  }

  /** Finds the first patient with CPF `cpf` and reports the bed that holds them.
      It reads the store and never changes it. */
  function BuscarPorCpf(b: Banco, cpf: string): (r: Result<Consulta>)
    requires OcupantesUnicos(b.leitos)
    ensures r.Err? <==> forall j | 0 <= j < |b.pacientes| :: b.pacientes[j].cpf != cpf
    ensures r.Err? ==> r.erro == PacienteNaoEncontrado
    ensures r.Ok? ==>
      exists i | PrimeiroComCpf(b.pacientes, cpf, i) ::
        && (r.value == NaoInternado <==> !Internado(b.leitos, b.pacientes[i].id))
        && forall id | id in b.leitos && b.leitos[id].pacienteId == Some(b.pacientes[i].id) ::
             r.value == Localizado(b.pacientes[i].nome, b.leitos[id].codigo, b.leitos[id].tipo, b.leitos[id].status)
  {
    match IndiceCpf(b.pacientes, cpf)
    case None => Err(PacienteNaoEncontrado)
    case Some(i) =>
      var paciente := b.pacientes[i];
      match LeitoDe(b.leitos, paciente.id)
      case None => Ok(NaoInternado)
      case Some(id) =>
        var leito := b.leitos[id];
        Ok(Localizado(paciente.nome, leito.codigo, leito.tipo, leito.status))
  }
}
