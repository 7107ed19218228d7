# Hospital bed occupancy (leitos) — a Dafny model

This project models the core of a hospital bed-occupancy API. Every bed
(`leito`) is LIVRE (free), OCUPADO (holding one patient) or MANUTENCAO (under
maintenance). The service (`LeitoService`) admits a patient to a bed
(`ocuparLeito`), frees a bed (`liberarLeito`), moves a patient from one bed to
another (`transferirPaciente`) and finds a patient's bed by CPF
(`buscarPorCpf`). Every change writes one row to the audit trail
(`auditoria_leitos`). The CPF validator (`CpfValido`) checks the Brazilian
mod-11 check digits of a national id.

Files and modules:

- `modelo.dfy`, module `Modelo`: the rows of the three tables. It also holds
  the constraints of the `leitos` schema: unique `codigo`, nullable unique
  `paciente_id`, and "a bed holds a patient iff it is OCUPADO". The column
  defaults are in `NovoLeito`.
- `ocupacao.dfy`, module `Ocupacao`: the service's rules as functions of the
  database state (`Banco`). Each returns the new state and `Ok(())` or the
  error the service throws. `Valido` is the store invariant.
- `propriedades.dfy`, module `Propriedades`: lemmas that relate several calls.
  They cover invariant preservation (per call and for any run of calls), freeing
  twice, admit-then-free, transfer-and-back, transfer versus free-then-admit,
  and what the CPF lookup sees after each operation.
- `servico.dfy`, module `Servico`: class `LeitoService`. Its fields are the
  three tables. Its methods check the guards, assign `pacienteId` and `status`,
  and append the audit row. Each method is proved to produce exactly the state
  and outcome of the matching `Ocupacao` rule and to keep `Valido`.
  `CenarioOcupar` and `CenarioTransferir` walk through the documented
  scenarios.
- `cpf.dfy`, module `CpfValido`: the validator as a spec function
  (`Verificar`) and as a method with the source's two summing loops
  (`Validar`). The two are proved equal. `Completar` appends the two check
  digits to a nine-digit base; it serves as an independent reference for the
  validator.
- `paginacao.dfy`, module `Paginacao`: the page-size clamp of the listings.

Modelling choices:

- The patients table is a sequence in table order. `buscarPorCpf` uses
  `first()`, so the model returns the first row with that CPF. CPF uniqueness
  is not assumed, because the patients migration is not part of this model.
- PHP's truthiness test on `paciente_id` is modelled as "the column is not
  null". `Valido` requires patient ids to be positive (they come from
  auto-increment), so the id 0, which PHP would treat as false, never occurs.
- Patient existence for `ocuparLeito` is a precondition of
  `LeitoService.OcuparLeito`. The controller validates it
  (`exists:pacientes,id`) before it calls the service. A missing bed id is an
  error path (`NotFound`), as `findOrFail` makes it.
- The model keeps the code's own behaviour where a stricter one might be
  expected:
  - `liberarLeito` frees any bed, even one in MANUTENCAO or one already free,
    and always writes a LIBERAR row.
  - `transferirPaciente` checks only that the origin has an occupant, not its
    status.
  - `buscarPorCpf` does not validate the CPF itself; the controller does.

## Model

| member | source | states |
|---|---|---|
| `Modelo.NovoLeito` | database/migrations/2026_02_11_232712_create_leitos_table.php:16-23 | a bed created from its code defaults to ENFERMARIA (or the given kind), LIVRE and no patient, so it is available and coherent |
| `Modelo.NovoLeitoPreservaValidos` | database/migrations/2026_02_11_232712_create_leitos_table.php:15-23 | adding a new bed with a fresh id and an unused code keeps the unique-code, unique-occupant and occupant-iff-OCUPADO constraints |
| `Ocupacao.Registrar` | app/Services/LeitoService.php:111-118 | appends exactly one audit row with the given bed, patient, action and details; every earlier row and every bed and patient is unchanged |
| `Ocupacao.Ocupar` | app/Services/LeitoService.php:20-38 | NotFound iff the bed id has no row; Indisponivel iff the bed has a patient or is not LIVRE (checked first); PacienteJaInternado iff the bed is available and the patient is on some bed; on failure nothing changes; on success only that bed changes, to OCUPADO with the patient, and one OCUPAR row naming bed, patient and code is appended |
| `Ocupacao.Liberar` | app/Services/LeitoService.php:41-51 | fails, changing nothing, only when the bed id has no row; otherwise sets that bed to LIVRE with no patient whatever its status, keeps every other bed, and appends one LIBERAR row carrying the previous occupant (possibly none) |
| `Ocupacao.Transferir` | app/Services/LeitoService.php:53-84 | NotFound iff either id has no row; SemPacienteNaOrigem iff the origin has no patient; DestinoOcupado iff the origin has one and the destination has a patient or is not LIVRE; on failure nothing changes; on success the beds differ, the origin becomes LIVRE and empty, the destination OCUPADO with the origin's patient, others are unchanged, and one TRANSFERIR row names the destination, the patient and both codes |
| `Ocupacao.IndiceCpf` | app/Services/LeitoService.php:88 | finds the first patient row with the CPF, or none exactly when no row has it |
| `Ocupacao.LeitoDe` | app/Services/LeitoService.php:94-102 | the bed holding the patient, none exactly when no bed holds them |
| `Ocupacao.BuscarPorCpf` | app/Services/LeitoService.php:86-104 | PacienteNaoEncontrado exactly when no patient has the CPF; otherwise, for the first patient with it, NaoInternado iff no bed holds them, else name, code, kind and status of the bed that does |
| `Propriedades.OcuparPreservaValido` | app/Services/LeitoService.php:20-38 | admitting an existing patient keeps the store invariant: occupant iff OCUPADO, no patient on two beds, occupants exist, codes unique |
| `Propriedades.LiberarPreservaValido` | app/Services/LeitoService.php:41-51 | freeing any bed keeps the store invariant |
| `Propriedades.TransferirPreservaValido` | app/Services/LeitoService.php:53-84 | a transfer keeps the store invariant; the moved patient is on the destination only |
| `Propriedades.LiberarIdempotente` | app/Services/LeitoService.php:41-51 | freeing a bed twice leaves the beds as freeing it once, but appends two LIBERAR rows, the second with no patient |
| `Propriedades.OcuparLiberarRestaura` | app/Services/LeitoService.php:20-51 | a successful admission followed by freeing the same bed restores the original beds, with an OCUPAR row then a LIBERAR row for that patient |
| `Propriedades.TransferirParaSiFalha` | app/Services/LeitoService.php:58-64 | transferring a bed to itself always fails |
| `Propriedades.TransferirIdaEVolta` | app/Services/LeitoService.php:53-84 | in a valid store, a successful transfer followed by the transfer back succeeds, restores the original beds and appends two rows for the same patient |
| `Propriedades.TransferirComoLiberarOcupar` | app/Services/LeitoService.php:53-84 | in a valid store, a transfer leaves the beds exactly as freeing the origin and admitting its patient to the destination, with one audit row instead of two |
| `Propriedades.BuscarAposOcupar` | app/Services/LeitoService.php:86-103 | after a patient is admitted, the CPF lookup reports that bed's code and kind with status OCUPADO |
| `Propriedades.BuscarAposLiberar` | app/Services/LeitoService.php:86-96 | after the bed holding a patient is freed, the CPF lookup answers that the patient is not admitted |
| `Propriedades.ExecucaoPreservaValido` | app/Services/LeitoService.php:20-84 | any run of the three operations from a valid store ends valid, leaves patients untouched, keeps every earlier audit row in place and adds at most one row per call |
| `Servico.LeitoService.RegistrarAuditoria` | app/Services/LeitoService.php:111-118 | changes only the audit trail, appending the one row |
| `Servico.LeitoService.OcuparLeito` | app/Services/LeitoService.php:20-39 | the new tables and the outcome are exactly those of `Ocupar` on the old tables, and the store invariant holds after |
| `Servico.LeitoService.LiberarLeito` | app/Services/LeitoService.php:41-51 | the new tables and the outcome are exactly those of `Liberar`, and the store invariant holds after |
| `Servico.LeitoService.TransferirPaciente` | app/Services/LeitoService.php:53-84 | the new tables and the outcome are exactly those of `Transferir`, and the store invariant holds after |
| `CpfValido.Valor` | app/Rules/CpfValido.php:27 | a digit character's value is in 0..9 |
| `CpfValido.Soma` | app/Rules/CpfValido.php:25-28 | the weighted digit sum is never negative, so the remainder mod 11 is the same in PHP and Dafny |
| `CpfValido.DigitoVerificador` | app/Rules/CpfValido.php:29-30 | a check digit is in 0..9; it is 0 when the remainder is 0 or 1, and otherwise brings the sum to a multiple of 11 |
| `CpfValido.Mensagem` | app/Rules/CpfValido.php:13-47 | the format message is reported exactly for a format failure, the "inválido" message for every other rejection |
| `CpfValido.Validar` | app/Rules/CpfValido.php:10-48 | the two summing loops and early returns give exactly the verdict of the rules in order: format, repeated digits, first check digit, second check digit |
| `CpfValido.Completar` | app/Rules/CpfValido.php:25-47 | the completion of nine digits is eleven digits that start with them |
| `CpfValido.SomaPrefixo` | app/Rules/CpfValido.php:25-28 | the weighted sum depends only on the digits it reads |
| `CpfValido.CompletarValido` | app/Rules/CpfValido.php:19-47 | nine digits that are not all the same, followed by their two check digits, are accepted |
| `CpfValido.ValidoDeterminadoPelaBase` | app/Rules/CpfValido.php:25-47 | every accepted CPF is the completion of its first nine digits |
| `CpfValido.ValidosComMesmaBase` | app/Rules/CpfValido.php:25-47 | two accepted CPFs with the same first nine digits are equal |
| `CpfValido.ExemploValido1` | tests/Feature/LeitoApiTest.php:25 | 52998224725 is accepted |
| `CpfValido.ExemploValido2` | tests/Feature/LeitoApiTest.php:111 | 11144477735 is accepted |
| `CpfValido.ExemplosRepetidos` | app/Rules/CpfValido.php:19-22 | 00000000000 and 11111111111 are rejected as repeated digits |
| `CpfValido.ExemplosInvalidos` | app/Rules/CpfValido.php:13-47 | a ten-digit value and one with a letter fail the format rule; 12345678900 fails the second check digit |
| `CpfValido.VerificarComoEscrito` | app/Rules/CpfValido.php:13-22 | on an eleven-character input the patterns as written agree with the intended rules |
| `CpfValido.NovaLinhaFinalAceita` | app/Rules/CpfValido.php:13 | as written, 52998224725 followed by a newline is accepted; the intended rule rejects it for its format |
| `Paginacao.PorPagina` | app/Http/Controllers/LeitoController.php:27-28 | the page size is clamped to 1..100, and a size already in range is kept |

## Findings

| source | as written | input that shows it | evidently intended | confidence | as-written member | corrected member |
|---|---|---|---|---|---|---|
| app/Rules/CpfValido.php:13 | `/^\d{11}$/` (and `/^(\d)\1{10}$/` at line 19) also match when one newline follows the eleven digits, because PCRE's `$` matches before a final newline | `"52998224725\n"` is accepted | exactly eleven ASCII digits, as the comment on line 12 and the error message say | not executed; follows from PCRE's documented meaning of `$` without the `D` modifier | `CpfValido.VerificarComoEscrito`, `CpfValido.NovaLinhaFinalAceita` | `CpfValido.Verificar`, `CpfValido.Validar` |

## Left out

- The listing operations `listarLeitos` and `listarPacientes` are not modelled. They are Eloquent `paginate` calls with no logic of their own. Only the page-size clamp is modelled.
- The HTTP layer is not modelled: routing, request validation, JSON shaping and status codes. Patient existence is a precondition of `OcuparLeito`, and the CPF lookup assumes nothing about the CPF's validity.
- Transactions and concurrency are not modelled. Each operation is one atomic step, so the check-then-write race is not represented. Neither is `liberarLeito` running without a transaction.
- The diagnostic `Log::info` line in `registrarAuditoria` is left out. It has no effect on state.
- Audit row ids, timestamps and the foreign keys' `nullOnDelete` are left out. Nothing in the core deletes rows.
- Rate limiting is framework middleware and is left out.
- The enum files for status and kind are not part of this model. Their values come from the migration's comments.
- Creating beds and patients (the seeders and `Model::create` calls) is left out. The service starts from tables that satisfy the invariant. `NovoLeito` and `NovoLeitoPreservaValidos` give the schema defaults and show that inserting a new bed keeps the invariant.
- `Servico.LeitoService.OcuparLeito`: when the patient does not exist, the model requires it instead of raising the database's foreign-key failure, because the controller rejects such calls first.
