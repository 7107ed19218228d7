/** The CPF (Cadastro de Pessoas Físicas) validation rule: a candidate is
    accepted when it is exactly eleven ASCII digits, not all the same digit,
    and its last two digits are the mod-11 check digits of the nine and ten
    digits before them. */
module CpfValido {

  /** Which rule, if any, rejects a candidate. The rule itself reports only two
      messages (see Mensagem); the reason is kept apart here so the order of the
      checks can be stated. */
  datatype Veredito = Valido | FormatoInvalido | DigitosRepetidos | PrimeiroDigitoInvalido | SegundoDigitoInvalido

  const MensagemFormato: string := "O :attribute deve conter exatamente 11 dígitos numéricos."
  const MensagemInvalido: string := "O :attribute informado é inválido."

  predicate EhDigito(c: char) {
    '0' <= c <= '9'
  }

  /** The value of a digit character, as `(int)` gives it. */
  function Valor(c: char): (d: int)
    requires EhDigito(c)
    ensures 0 <= d <= 9
  {
    c as int - '0' as int
  }

  /** The digit character of a value in 0..9. */
  function Caractere(d: int): (c: char)
    requires 0 <= d <= 9
    ensures EhDigito(c) && Valor(c) == d
  {
    ('0' as int + d) as char
  }

  /** Exactly eleven ASCII digits. */
  predicate Formato(s: string) {
    |s| == 11 && forall i | 0 <= i < |s| :: EhDigito(s[i])
  }

  /** All eleven characters are the first one. */
  predicate Repetidos(s: string)
    requires |s| == 11
  {
    forall i | 0 <= i < 11 :: s[i] == s[0]
  }

  /** The weighted sum of the first `n` digits of `s`, the digit at index `i`
      weighing `peso - i`. */
  function Soma(s: string, n: nat, peso: int): (r: int)
    requires n <= |s| && n <= peso
    requires forall i | 0 <= i < n :: EhDigito(s[i])
    ensures 0 <= r
  {
    if n == 0 then 0
    else
      ProdutoNaoNegativo(Valor(s[n - 1]), peso - (n - 1));
      Soma(s, n - 1, peso) + Valor(s[n - 1]) * (peso - (n - 1))
  }

  lemma ProdutoNaoNegativo(a: int, b: int)
    requires 0 <= a && 0 <= b
    ensures 0 <= a * b
  {
  }

  /** The check digit of a weighted sum: 0 when the remainder mod 11 is below 2,
      otherwise the amount that brings the sum to the next multiple of 11. */
  function DigitoVerificador(soma: int): (d: int)
    requires 0 <= soma
    ensures 0 <= d <= 9
    ensures soma % 11 < 2 ==> d == 0
    ensures soma % 11 >= 2 ==> (soma + d) % 11 == 0
  {
    var resto := soma % 11;
    if resto < 2 then 0 else 11 - resto
  }

  /** The rules in the order the validator applies them; the first that fails
      decides the verdict. */
  function Verificar(s: string): Veredito {
    if !Formato(s) then FormatoInvalido
    else if Repetidos(s) then DigitosRepetidos
    else if Valor(s[9]) != DigitoVerificador(Soma(s, 9, 10)) then PrimeiroDigitoInvalido
    else if Valor(s[10]) != DigitoVerificador(Soma(s, 10, 11)) then SegundoDigitoInvalido
    else Valido
  }

  /** The message the validator reports for a rejected candidate. */
  function Mensagem(v: Veredito): (m: string)
    requires v != Valido
    ensures m == MensagemFormato <==> v == FormatoInvalido
    ensures m == MensagemInvalido <==> v != FormatoInvalido
  {
    if v == FormatoInvalido then MensagemFormato else MensagemInvalido
  }

  /** The validator: the format and repetition checks, then one accumulating
      loop per check digit, returning at the first rule that fails. */
  method Validar(valor: string) returns (v: Veredito)
    ensures v == Verificar(valor)
  {
    if !Formato(valor) {
      return FormatoInvalido;
    }
    if Repetidos(valor) {
      return DigitosRepetidos;
    }

    var soma := 0;
    for i := 0 to 9
      invariant soma == Soma(valor, i, 10)
    {
      soma := soma + Valor(valor[i]) * (10 - i);
    }
    var digito1 := DigitoVerificador(soma);
    if Valor(valor[9]) != digito1 {
      return PrimeiroDigitoInvalido;
    }

    soma := 0;
    for i := 0 to 10
      invariant soma == Soma(valor, i, 11)
    {
      soma := soma + Valor(valor[i]) * (11 - i);
    }
    var digito2 := DigitoVerificador(soma);
    if Valor(valor[10]) != digito2 {
      return SegundoDigitoInvalido;
    }
    return Valido;
  }

  /** The weighted sum reads only the first `n` characters. */
  lemma {:induction false} SomaPrefixo(s: string, t: string, n: nat, peso: int)
    requires n <= |s| && n <= |t| && n <= peso
    requires forall i | 0 <= i < n :: EhDigito(s[i])
    requires forall i | 0 <= i < n :: s[i] == t[i]
    ensures forall i | 0 <= i < n :: EhDigito(t[i])
    ensures Soma(s, n, peso) == Soma(t, n, peso)
  {
    if n > 0 {
      SomaPrefixo(s, t, n - 1, peso);
    }
  }

  /** The CPF whose first nine digits are `base`: the base followed by its two
      check digits. */
  function Completar(base: string): (s: string)
    requires |base| == 9 && forall i | 0 <= i < 9 :: EhDigito(base[i])
    ensures Formato(s) && s[..9] == base
  {
    var d1 := Caractere(DigitoVerificador(Soma(base, 9, 10)));
    var s10 := base + [d1];
    s10 + [Caractere(DigitoVerificador(Soma(s10, 10, 11)))]
  }

  /** Completing any nine digits that are not all the same gives an accepted CPF. */
  lemma {:induction false} CompletarValido(base: string)
    requires |base| == 9 && forall i | 0 <= i < 9 :: EhDigito(base[i])
    requires exists i | 0 <= i < 9 :: base[i] != base[0]
    ensures Verificar(Completar(base)) == Valido
  {
    var s := Completar(base);
    var s10 := s[..10];
    assert s10 == base + [s[9]];
    SomaPrefixo(base, s, 9, 10);
    SomaPrefixo(s10, s, 10, 11);
    var i :| 0 <= i < 9 && base[i] != base[0];
    assert s[i] != s[0];
  }

  /** An accepted CPF is determined by its first nine digits: it is their completion. */
  lemma {:induction false} ValidoDeterminadoPelaBase(s: string)
    requires Verificar(s) == Valido
    ensures s == Completar(s[..9])
  {
    var base := s[..9];
    var c := Completar(base);
    SomaPrefixo(s, base, 9, 10);
    assert c[9] == s[9] by {
      assert Valor(c[9]) == Valor(s[9]);
    }
    SomaPrefixo(s, c, 10, 11);
    SomaPrefixo(c[..10], c, 10, 11);
    assert c[..10] == base + [c[9]];
    assert c[10] == s[10] by {
      assert Valor(c[10]) == Valor(s[10]);
    }
    assert forall i | 0 <= i < 11 :: c[i] == s[i];
  }

  /** Two accepted CPFs that share their first nine digits are equal. */
  lemma {:induction false} ValidosComMesmaBase(s: string, t: string)
    requires Verificar(s) == Valido && Verificar(t) == Valido
    requires s[..9] == t[..9]
    ensures s == t
  {
    ValidoDeterminadoPelaBase(s);
    ValidoDeterminadoPelaBase(t);
  }

  /** The format test as the pattern `^\d{11}$` reads it: PCRE's `$` also
      matches just before one final newline, so eleven digits and a newline pass. */
  predicate FormatoPcre(s: string) {
    && (|s| == 11 || (|s| == 12 && s[11] == '\n'))
    && forall i | 0 <= i < 11 :: EhDigito(s[i])
  }

  /** The rules exactly as the patterns are written; the repetition pattern
      has the same `$`, and the check digits read indices 0 to 10 only. */
  function VerificarComoEscrito(s: string): (v: Veredito)
    ensures |s| == 11 ==> v == Verificar(s)
  {
    if !FormatoPcre(s) then FormatoInvalido
    else if Repetidos(s[..11]) then DigitosRepetidos
    else if Valor(s[9]) != DigitoVerificador(Soma(s, 9, 10)) then PrimeiroDigitoInvalido
    else if Valor(s[10]) != DigitoVerificador(Soma(s, 10, 11)) then SegundoDigitoInvalido
    else Valido
  }

  /** As written, an accepted CPF followed by a newline is accepted too; the
      intended rule, Verificar, rejects it for its format. */
  lemma NovaLinhaFinalAceita()
    ensures VerificarComoEscrito("52998224725\n") == Valido
    ensures Verificar("52998224725\n") == FormatoInvalido
  {
    var s := "52998224725\n";
    assert FormatoPcre(s);
    assert s[0] != s[1];
    assert Soma(s, 1, 10) == 50;
    assert Soma(s, 2, 10) == 68;
    assert Soma(s, 3, 10) == 140;
    assert Soma(s, 4, 10) == 203;
    assert Soma(s, 5, 10) == 251;
    assert Soma(s, 6, 10) == 261;
    assert Soma(s, 7, 10) == 269;
    assert Soma(s, 8, 10) == 281;
    assert Soma(s, 9, 10) == 295;
    assert Soma(s, 1, 11) == 55;
    assert Soma(s, 2, 11) == 75;
    assert Soma(s, 3, 11) == 156;
    assert Soma(s, 4, 11) == 228;
    assert Soma(s, 5, 11) == 284;
    assert Soma(s, 6, 11) == 296;
    assert Soma(s, 7, 11) == 306;
    assert Soma(s, 8, 11) == 322;
    assert Soma(s, 9, 11) == 343;
    assert Soma(s, 10, 11) == 347;
  }

  /** A CPF the system accepts (its sums are 295 and 347). */
  lemma ExemploValido1()
    ensures Verificar("52998224725") == Valido
  {
    var s := "52998224725";
    assert Formato(s);
    assert s[0] != s[1];
    assert Soma(s, 1, 10) == 50;
    assert Soma(s, 2, 10) == 68;
    assert Soma(s, 3, 10) == 140;
    assert Soma(s, 4, 10) == 203;
    assert Soma(s, 5, 10) == 251;
    assert Soma(s, 6, 10) == 261;
    assert Soma(s, 7, 10) == 269;
    assert Soma(s, 8, 10) == 281;
    assert Soma(s, 9, 10) == 295;
    assert Soma(s, 1, 11) == 55;
    assert Soma(s, 2, 11) == 75;
    assert Soma(s, 3, 11) == 156;
    assert Soma(s, 4, 11) == 228;
    assert Soma(s, 5, 11) == 284;
    assert Soma(s, 6, 11) == 296;
    assert Soma(s, 7, 11) == 306;
    assert Soma(s, 8, 11) == 322;
    assert Soma(s, 9, 11) == 343;
    assert Soma(s, 10, 11) == 347;
  }

  /** Another CPF the system accepts (its sums are 162 and 204). */
  lemma ExemploValido2()
    ensures Verificar("11144477735") == Valido
  {
    var s := "11144477735";
    assert Formato(s);
    assert s[0] != s[3];
    assert Soma(s, 1, 10) == 10;
    assert Soma(s, 2, 10) == 19;
    assert Soma(s, 3, 10) == 27;
    assert Soma(s, 4, 10) == 55;
    assert Soma(s, 5, 10) == 79;
    assert Soma(s, 6, 10) == 99;
    assert Soma(s, 7, 10) == 127;
    assert Soma(s, 8, 10) == 148;
    assert Soma(s, 9, 10) == 162;
    assert Soma(s, 1, 11) == 11;
    assert Soma(s, 2, 11) == 21;
    assert Soma(s, 3, 11) == 30;
    assert Soma(s, 4, 11) == 62;
    assert Soma(s, 5, 11) == 90;
    assert Soma(s, 6, 11) == 114;
    assert Soma(s, 7, 11) == 149;
    assert Soma(s, 8, 11) == 177;
    assert Soma(s, 9, 11) == 198;
    assert Soma(s, 10, 11) == 204;
  }

  /** Repeated digits are rejected before any check digit is computed. */
  lemma ExemplosRepetidos()
    ensures Verificar("00000000000") == DigitosRepetidos
    ensures Verificar("11111111111") == DigitosRepetidos
  {
  }

  /** A ten-digit candidate and one with a letter fail the format rule; a
      candidate with a wrong second check digit fails at the last rule. */
  lemma ExemplosInvalidos()
    ensures Verificar("5299822472") == FormatoInvalido
    ensures Verificar("5299822472a") == FormatoInvalido
    ensures Verificar("12345678900") == SegundoDigitoInvalido
  {
    var s := "12345678900";
    assert Formato(s);
    assert s[0] != s[1];
    assert Soma(s, 1, 10) == 10;
    assert Soma(s, 2, 10) == 28;
    assert Soma(s, 3, 10) == 52;
    assert Soma(s, 4, 10) == 80;
    assert Soma(s, 5, 10) == 110;
    assert Soma(s, 6, 10) == 140;
    assert Soma(s, 7, 10) == 168;
    assert Soma(s, 8, 10) == 192;
    assert Soma(s, 9, 10) == 210;
    assert Soma(s, 1, 11) == 11;
    assert Soma(s, 2, 11) == 31;
    assert Soma(s, 3, 11) == 58;
    assert Soma(s, 4, 11) == 90;
    assert Soma(s, 5, 11) == 125;
    assert Soma(s, 6, 11) == 161;
    assert Soma(s, 7, 11) == 196;
    assert Soma(s, 8, 11) == 228;
    assert Soma(s, 9, 11) == 255;
    assert Soma(s, 10, 11) == 255;
  }
}
