/** The bed service over the database it writes to. The three tables are fields
    of the object; each operation checks its guards, then assigns the bed's
    `pacienteId` and `status` and appends its audit row, as one atomic step.
    Every method is proved to produce exactly the new state and outcome of the
    matching rule in Ocupacao, and to keep the store invariant. */
module Servico {
  import opened Modelo
  import opened Ocupacao
  import Propriedades

  class LeitoService {
    var leitos: map<int, Leito>
    var pacientes: seq<Paciente>
    var auditoria: seq<Auditoria>

    /** The database as a value. */
    ghost function Estado(): Banco
      reads this
    {
      Banco(leitos, pacientes, auditoria)
    }

    ghost predicate Valid()
      reads this
    {
      Valido(Estado())
    }

    /** A service over beds and patients already in the database, with an empty audit trail. */
    constructor (leitosIniciais: map<int, Leito>, pacientesIniciais: seq<Paciente>)
      requires Valido(Banco(leitosIniciais, pacientesIniciais, []))
      ensures Valid()
      ensures Estado() == Banco(leitosIniciais, pacientesIniciais, [])
    {
      leitos := leitosIniciais;
      pacientes := pacientesIniciais;
      auditoria := [];
    }

    /** Appends one row to the audit trail; the diagnostic log line is not modelled. */
    method RegistrarAuditoria(leitoId: Option<int>, pacienteId: Option<int>, acao: Acao, detalhes: string)
      modifies this`auditoria
      ensures Estado() == Registrar(old(Estado()), leitoId, pacienteId, acao, detalhes)
    {
      auditoria := auditoria + [Auditoria(leitoId, pacienteId, acao, detalhes)];
    }

    /** Admits a patient, whose existence the controller has checked, to a bed. */
    method OcuparLeito(idLeito: int, idPaciente: int) returns (r: Result<()>)
      requires Valid()
      requires PacienteExiste(pacientes, idPaciente)
      modifies this
      ensures Valid()
      ensures (Estado(), r) == Ocupar(old(Estado()), idLeito, idPaciente)
    {
      ghost var antes := Estado();
      Propriedades.OcuparPreservaValido(antes, idLeito, idPaciente);
      if idLeito !in leitos {
        return Err(NotFound);
      }
      var leito := leitos[idLeito];
      if leito.pacienteId.Some? || leito.status != LIVRE {
        return Err(Indisponivel);
      }
      if Internado(leitos, idPaciente) {
        return Err(PacienteJaInternado);
      }
      leito := leito.(pacienteId := Some(idPaciente));
      leito := leito.(status := OCUPADO);
      leitos := leitos[idLeito := leito];
      RegistrarAuditoria(Some(idLeito), Some(idPaciente), OCUPAR, "Paciente internado no leito " + leito.codigo);
      r := Ok(());
    }

    /** Frees a bed whatever its status, recording the occupant it had. */
    method LiberarLeito(idLeito: int) returns (r: Result<()>)
      requires Valid()
      modifies this
      ensures Valid()
      ensures (Estado(), r) == Liberar(old(Estado()), idLeito)
    {
      ghost var antes := Estado();
      Propriedades.LiberarPreservaValido(antes, idLeito);
      if idLeito !in leitos {
        return Err(NotFound);
      }
      var leito := leitos[idLeito];
      var pacienteId := leito.pacienteId;
      leito := leito.(pacienteId := None);
      leito := leito.(status := LIVRE);
      leitos := leitos[idLeito := leito];
      RegistrarAuditoria(Some(idLeito), pacienteId, LIBERAR, "Leito " + leito.codigo + " liberado");
      r := Ok(());
    }

    /** Moves the patient on one bed to another; the origin is written first,
        so no patient is ever on two beds. */
    method TransferirPaciente(idAtual: int, idDestino: int) returns (r: Result<()>)
      requires Valid()
      modifies this
      ensures Valid()
      ensures (Estado(), r) == Transferir(old(Estado()), idAtual, idDestino)
    {
      ghost var antes := Estado();
      Propriedades.TransferirPreservaValido(antes, idAtual, idDestino);
      if idAtual !in leitos || idDestino !in leitos {
        return Err(NotFound);
      }
      var atual := leitos[idAtual];
      var destino := leitos[idDestino];
      if atual.pacienteId.None? {
        return Err(SemPacienteNaOrigem);
      }
      if destino.pacienteId.Some? || destino.status != LIVRE {
        return Err(DestinoOcupado);
      }
      var pacienteId := atual.pacienteId;
      atual := atual.(pacienteId := None, status := LIVRE);
      leitos := leitos[idAtual := atual];
      destino := destino.(pacienteId := pacienteId, status := OCUPADO);
      leitos := leitos[idDestino := destino];
      RegistrarAuditoria(Some(idDestino), pacienteId, TRANSFERIR,
                         "Paciente transferido do leito " + atual.codigo + " para " + destino.codigo);
      r := Ok(());
    }
  }

  /** Two free ICU beds and two patients, as the scenarios below start. */
  method NovoHospital(joao: Paciente, maria: Paciente) returns (s: LeitoService)
    requires joao.id >= 1 && maria.id >= 1 && joao.id != maria.id
    ensures fresh(s) && s.Valid()
    ensures s.leitos == map[1 := NovoLeito("UTI-01", UTI), 2 := NovoLeito("UTI-02", UTI)]
    ensures s.pacientes == [joao, maria] && s.auditoria == []
  {
    s := new LeitoService(map[1 := NovoLeito("UTI-01", UTI), 2 := NovoLeito("UTI-02", UTI)], [joao, maria]);
  }

  /** Admitting a patient, then admitting another to the same bed, then the
      same patient to a second bed: only the first succeeds. */
  method CenarioOcupar(joao: Paciente, maria: Paciente)
    requires joao.id >= 1 && maria.id >= 1 && joao.id != maria.id
  {
    var s := NovoHospital(joao, maria);
    assert s.pacientes[0] == joao && s.pacientes[1] == maria;
    var r := s.OcuparLeito(1, joao.id);
    assert r == Ok(()) && s.leitos[1].status == OCUPADO && |s.auditoria| == 1;
    assert s.pacientes[1] == maria;
    r := s.OcuparLeito(1, maria.id);
    assert r == Err(Indisponivel);
    assert s.pacientes[0] == joao;
    r := s.OcuparLeito(2, joao.id);
    assert r == Err(PacienteJaInternado) && |s.auditoria| == 1;
  }

  /** Transferring an admitted patient moves them and writes one row; a second
      transfer from the now empty bed fails; freeing the destination twice
      leaves it free and writes two rows. */
  method CenarioTransferir(joao: Paciente, maria: Paciente)
    requires joao.id >= 1 && maria.id >= 1 && joao.id != maria.id
  {
    var s := NovoHospital(joao, maria);
    assert s.pacientes[0] == joao;
    var r := s.OcuparLeito(1, joao.id);
    r := s.TransferirPaciente(1, 2);
    assert r == Ok(()) && Disponivel(s.leitos[1]) && s.leitos[2].pacienteId == Some(joao.id);
    assert s.auditoria[1].acao == TRANSFERIR && |s.auditoria| == 2;
    r := s.TransferirPaciente(1, 2);
    assert r == Err(SemPacienteNaOrigem);
    r := s.LiberarLeito(2);
    r := s.LiberarLeito(2);
    assert r == Ok(()) && Disponivel(s.leitos[2]) && |s.auditoria| == 4;
  }
}
