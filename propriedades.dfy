/** Properties of the occupancy rules that relate several calls: the store
    invariant is kept by every operation and by any sequence of them, freeing
    undoes admitting, a transfer can be undone and acts on beds like a free
    followed by an admission, and the CPF lookup sees what the operations did. */
module Propriedades {
  import opened Modelo
  import opened Ocupacao

  /** Admitting an existing patient keeps the store invariant. */
  lemma OcuparPreservaValido(b: Banco, idLeito: int, idPaciente: int)
    requires Valido(b)
    requires PacienteExiste(b.pacientes, idPaciente)
    ensures Valido(Ocupar(b, idLeito, idPaciente).0)
  {
  }

  /** Freeing a bed keeps the store invariant. */
  lemma LiberarPreservaValido(b: Banco, idLeito: int)
    requires Valido(b)
    ensures Valido(Liberar(b, idLeito).0)
  {
  }

  /** Transferring a patient keeps the store invariant: the patient leaves the
      origin and is on the destination only. */
  lemma TransferirPreservaValido(b: Banco, idAtual: int, idDestino: int)
    requires Valido(b)
    ensures Valido(Transferir(b, idAtual, idDestino).0)
  {
  }

  /** Freeing the same bed twice leaves the beds as freeing it once, yet writes
      two LIBERAR rows. */
  lemma LiberarIdempotente(b: Banco, idLeito: int)
    requires idLeito in b.leitos
    ensures var b1 := Liberar(b, idLeito).0;
            var b2 := Liberar(b1, idLeito).0;
            && b2.leitos == b1.leitos
            && b2.pacientes == b.pacientes
            && |b2.auditoria| == |b.auditoria| + 2
            && b2.auditoria[|b.auditoria|].acao == LIBERAR
            && b2.auditoria[|b.auditoria| + 1] == Auditoria(Some(idLeito), None, LIBERAR, b2.auditoria[|b.auditoria|].detalhes)
  {
  }

  /** Freeing a bed right after a patient was admitted to it gives back the
      original beds, with an OCUPAR row and then a LIBERAR row for that patient. */
  lemma OcuparLiberarRestaura(b: Banco, idLeito: int, idPaciente: int)
    requires Ocupar(b, idLeito, idPaciente).1.Ok?
    ensures var l := b.leitos[idLeito];
            var b2 := Liberar(Ocupar(b, idLeito, idPaciente).0, idLeito).0;
            && b2.leitos == b.leitos
            && b2.pacientes == b.pacientes
            && b2.auditoria == b.auditoria +
                 [Auditoria(Some(idLeito), Some(idPaciente), OCUPAR, "Paciente internado no leito " + l.codigo),
                  Auditoria(Some(idLeito), Some(idPaciente), LIBERAR, "Leito " + l.codigo + " liberado")]
  {
  }

  /** A bed can never be transferred to itself. */
  lemma TransferirParaSiFalha(b: Banco, id: int)
    ensures Transferir(b, id, id).1.Err?
  {
  }

  /** In a valid store, a transfer followed by the transfer back gives the
      original beds and writes two TRANSFERIR rows for the same patient. */
  lemma TransferirIdaEVolta(b: Banco, idAtual: int, idDestino: int)
    requires Valido(b)
    requires Transferir(b, idAtual, idDestino).1.Ok?
    ensures var b1 := Transferir(b, idAtual, idDestino).0;
            var r2 := Transferir(b1, idDestino, idAtual);
            && r2.1.Ok?
            && r2.0.leitos == b.leitos
            && |r2.0.auditoria| == |b.auditoria| + 2
            && r2.0.auditoria[|b.auditoria|].pacienteId == r2.0.auditoria[|b.auditoria| + 1].pacienteId
                 == b.leitos[idAtual].pacienteId
  {
  }

  /** In a valid store, a transfer leaves the beds exactly as freeing the origin
      and then admitting its patient to the destination would, but it writes one
      audit row where those two calls write two. */
  lemma TransferirComoLiberarOcupar(b: Banco, idAtual: int, idDestino: int)
    requires Valido(b)
    requires Transferir(b, idAtual, idDestino).1.Ok?
    ensures var p := b.leitos[idAtual].pacienteId.value;
            var t := Transferir(b, idAtual, idDestino).0;
            var o := Ocupar(Liberar(b, idAtual).0, idDestino, p);
            && o.1.Ok?
            && o.0.leitos == t.leitos
            && |t.auditoria| == |b.auditoria| + 1
            && |o.0.auditoria| == |b.auditoria| + 2
  {
  }

  /** After a patient is admitted, looking them up by CPF finds that bed, OCUPADO. */
  lemma {:induction false} BuscarAposOcupar(b: Banco, idLeito: int, i: int)
    requires Valido(b)
    requires 0 <= i < |b.pacientes|
    requires PrimeiroComCpf(b.pacientes, b.pacientes[i].cpf, i)
    requires Ocupar(b, idLeito, b.pacientes[i].id).1.Ok?
    ensures var b1 := Ocupar(b, idLeito, b.pacientes[i].id).0;
            var l := b.leitos[idLeito];
            && OcupantesUnicos(b1.leitos)
            && BuscarPorCpf(b1, b.pacientes[i].cpf) == Ok(Localizado(b.pacientes[i].nome, l.codigo, l.tipo, OCUPADO))
  {
    var p := b.pacientes[i];
    OcuparPreservaValido(b, idLeito, p.id) by {
      assert b.pacientes[i].id == p.id;
    }
    var b1 := Ocupar(b, idLeito, p.id).0;
    assert b1.leitos[idLeito].pacienteId == Some(p.id);
    var r := BuscarPorCpf(b1, p.cpf);
    var k :| PrimeiroComCpf(b1.pacientes, p.cpf, k) &&
             forall id | id in b1.leitos && b1.leitos[id].pacienteId == Some(b1.pacientes[k].id) ::
               r.value == Localizado(b1.pacientes[k].nome, b1.leitos[id].codigo, b1.leitos[id].tipo, b1.leitos[id].status);
    assert k == i;
  }

  /** After the bed holding a patient is freed, looking them up by CPF answers
      that they are not admitted. */
  lemma BuscarAposLiberar(b: Banco, idLeito: int, i: int)
    requires Valido(b)
    requires 0 <= i < |b.pacientes|
    requires PrimeiroComCpf(b.pacientes, b.pacientes[i].cpf, i)
    requires idLeito in b.leitos && b.leitos[idLeito].pacienteId == Some(b.pacientes[i].id)
    ensures var b1 := Liberar(b, idLeito).0;
            && OcupantesUnicos(b1.leitos)
            && BuscarPorCpf(b1, b.pacientes[i].cpf) == Ok(NaoInternado)
  {
  }

  /** One call to the service. Admissions carry a patient that exists, as the
      controller checks before calling. */
  datatype Chamada = ChamaOcupar(idLeito: int, idPaciente: int) | ChamaLiberar(idLeito: int) | ChamaTransferir(idAtual: int, idDestino: int)

  function Aplicar(b: Banco, c: Chamada): (Banco, Result<()>) {
    match c
    case ChamaOcupar(l, p) => Ocupar(b, l, p)
    case ChamaLiberar(l) => Liberar(b, l)
    case ChamaTransferir(a, d) => Transferir(b, a, d)
  }

  /** Runs the calls one after the other, each as one atomic step. */
  function Executar(b: Banco, cs: seq<Chamada>): Banco
    decreases |cs|
  {
    if cs == [] then b else Executar(Aplicar(b, cs[0]).0, cs[1..])
  }

  /** Admissions in the run name patients of the store. */
  predicate ChamadasAdmissiveis(pacientes: seq<Paciente>, cs: seq<Chamada>) {
    forall k | 0 <= k < |cs| && cs[k].ChamaOcupar? :: PacienteExiste(pacientes, cs[k].idPaciente)
  }

  /** Any run of the service from a valid store ends in a valid store; the
      patients are untouched, and the audit trail only grows: every earlier row
      stays where it was, and each call adds at most one row. */
  lemma {:induction false} ExecucaoPreservaValido(b: Banco, cs: seq<Chamada>)
    requires Valido(b)
    requires ChamadasAdmissiveis(b.pacientes, cs)
    ensures var f := Executar(b, cs);
            && Valido(f)
            && f.pacientes == b.pacientes
            && |b.auditoria| <= |f.auditoria| <= |b.auditoria| + |cs|
            && f.auditoria[..|b.auditoria|] == b.auditoria
    decreases |cs|
  {
    if cs != [] {
      var b1 := Aplicar(b, cs[0]).0;
      match cs[0] {
        case ChamaOcupar(l, p) => OcuparPreservaValido(b, l, p);
        case ChamaLiberar(l) => LiberarPreservaValido(b, l);
        case ChamaTransferir(a, d) => TransferirPreservaValido(b, a, d);
      }
      assert b1.pacientes == b.pacientes;
      assert |b.auditoria| <= |b1.auditoria| <= |b.auditoria| + 1;
      assert b1.auditoria[..|b.auditoria|] == b.auditoria;
      assert ChamadasAdmissiveis(b1.pacientes, cs[1..]) by {
        forall k | 0 <= k < |cs[1..]| && cs[1..][k].ChamaOcupar?
          ensures PacienteExiste(b1.pacientes, cs[1..][k].idPaciente)
        {
          assert cs[1..][k] == cs[k + 1];
        }
      }
      ExecucaoPreservaValido(b1, cs[1..]);
      var f := Executar(b1, cs[1..]);
      assert f.auditoria[..|b1.auditoria|] == b1.auditoria;
      assert f.auditoria[..|b.auditoria|] == f.auditoria[..|b1.auditoria|][..|b.auditoria|];
    }
  }
}
