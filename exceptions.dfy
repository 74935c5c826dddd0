/** The error kinds a film factory can fail with (`FilmeDomainExceptionError`).
    Throwing `FilmeDomainException(kind)` becomes returning `Failure(kind)`. */
module Exceptions {

  datatype FilmeError =
    | TituloInvalido
    | TituloTamanhoMaximo
    | DiretorInvalido
    | DiretorTamanhoMaximo
    | DataLancamentoInvalida
    | AvaliacaoInvalida

  /** The fixed message each kind carries. */
  function Message(e: FilmeError): string {
    match e
    case TituloInvalido => "T\U{ED}tulo do filme inv\U{E1}lido"
    case TituloTamanhoMaximo => "T\U{ED}tulo do filme deve possuir no m\U{E1}ximo 100 caracteres"
    case DiretorInvalido => "Diretor do filme inv\U{E1}lido"
    case DiretorTamanhoMaximo => "Diretor do filme deve possuir no m\U{E1}ximo 100 caracteres"
    case DataLancamentoInvalida => "Data do lan\U{E7}amento do filme deve ser a partir de 1895"
    case AvaliacaoInvalida => "A avalia\U{E7}\U{E3}o do filme deve ser de zero \U{E0} cinco"
  }
}
