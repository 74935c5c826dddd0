/** `Filme`: a film entity built only through the validating factory `Create`. */
module Entities {
  import opened Wrappers
  import opened DotNet
  import opened Exceptions
  import opened Primitives

  const FilmeType: RuntimeType := RuntimeType("DomainValidation.Entities.Filme", true)

  /** A film: its `Id` and the four properties. `string` properties may hold
      null; `double` is modelled by `real` (NaN and rounding are not modelled). */
  datatype Filme = Filme(
    id: Guid,
    titulo: Option<NetString>,
    diretor: Option<NetString>,
    dataLancamento: DateTime,
    avaliacao: real)

  /** A film seen as its `Entity` base. */
  function AsEntity(f: Filme): Entity {
    Entity(FilmeType, f.id)
  }

  const MaxTextLength: int := 100

  /** The release-date threshold `new DateTime(1895, 01, 01)`. */
  const FirstRelease: Calendar := Calendar(1895, 1, 1, 0)

  function ReleaseCutoff(): (d: DateTime)
    ensures d.ticks == 691_769 * TicksPerDay
  {
    ToDateTime(FirstRelease)
  }

  /** A title that passes the blank check and the length check. */
  predicate TituloAccepted(t: Option<NetString>) {
    !IsNullOrWhiteSpace(t) && |t.value| <= MaxTextLength
  }

  /** Position of each guard in the factory (and of each kind in its declaration). */
  function Rank(e: FilmeError): nat {
    match e
    case TituloInvalido => 0
    case TituloTamanhoMaximo => 1
    case DiretorInvalido => 2
    case DiretorTamanhoMaximo => 3
    case DataLancamentoInvalida => 4
    case AvaliacaoInvalida => 5
  }

  /** The condition of the guard that throws `e`, as written in the factory,
      taken on its own. The two director guards test the title; the length
      guards are only reached with a non-null title. */
  predicate Guard(e: FilmeError, titulo: Option<NetString>, diretor: Option<NetString>,
                  dataLancamento: DateTime, avaliacao: real)
  {
    match e
    case TituloInvalido => IsNullOrWhiteSpace(titulo)
    case TituloTamanhoMaximo => titulo.Some? && |titulo.value| > MaxTextLength
    case DiretorInvalido => IsNullOrWhiteSpace(titulo)
    case DiretorTamanhoMaximo => titulo.Some? && |titulo.value| > MaxTextLength
    case DataLancamentoInvalida => Less(dataLancamento, ReleaseCutoff())
    case AvaliacaoInvalida => avaliacao < 0.0 && avaliacao > 5.0
  }

  /** `Filme.Create`: runs the guards in order and fails with the first one
      that holds, or returns the film built from its arguments. */
  function Create(id: Guid, titulo: Option<NetString>, diretor: Option<NetString>,
                  dataLancamento: DateTime, avaliacao: real): (r: Result<Filme, FilmeError>)
    // in effect only the title and the date are checked
    ensures r.Success? <==> TituloAccepted(titulo) && !Less(dataLancamento, ReleaseCutoff())
    ensures r.Failure? ==> r.error in {TituloInvalido, TituloTamanhoMaximo, DataLancamentoInvalida}
    // the film carries exactly the arguments
    ensures r.Success? ==> && r.value.id == id && r.value.titulo == titulo
                           && r.value.diretor == diretor
                           && r.value.dataLancamento == dataLancamento
                           && r.value.avaliacao == avaliacao
  {
    if IsNullOrWhiteSpace(titulo) then Failure(TituloInvalido)
    else if |titulo.value| > MaxTextLength then Failure(TituloTamanhoMaximo)
    else if IsNullOrWhiteSpace(titulo) then Failure(DiretorInvalido)
    else if |titulo.value| > MaxTextLength then Failure(DiretorTamanhoMaximo)
    else if Less(dataLancamento, ReleaseCutoff()) then Failure(DataLancamentoInvalida)
    else if avaliacao < 0.0 && avaliacao > 5.0 then Failure(AvaliacaoInvalida)
    else Success(Filme(id, titulo, diretor, dataLancamento, avaliacao))
  }

  // ----- lemmas about Create --------------------------------------------

  /** The guards run in source order: `Create` succeeds exactly when no guard
      holds, and otherwise reports the earliest guard that holds. */
  lemma CreateReportsFirstGuard(id: Guid, titulo: Option<NetString>, diretor: Option<NetString>,
                                dataLancamento: DateTime, avaliacao: real)
    ensures var r := Create(id, titulo, diretor, dataLancamento, avaliacao);
            && (r.Success? <==> forall e :: !Guard(e, titulo, diretor, dataLancamento, avaliacao))
            && (r.Failure? ==> Guard(r.error, titulo, diretor, dataLancamento, avaliacao))
            && (r.Failure? ==> forall e :: Guard(e, titulo, diretor, dataLancamento, avaliacao) ==>
                                           Rank(r.error) <= Rank(e))
  {
    if Guard(TituloInvalido, titulo, diretor, dataLancamento, avaliacao) {
    } else if Guard(TituloTamanhoMaximo, titulo, diretor, dataLancamento, avaliacao) {
    } else if Guard(DataLancamentoInvalida, titulo, diretor, dataLancamento, avaliacao) {
    }
  }

  /** A null, empty or white-space title fails with `TituloInvalido`, whatever else is passed. */
  lemma BlankTitleFails(id: Guid, titulo: Option<NetString>, diretor: Option<NetString>,
                        dataLancamento: DateTime, avaliacao: real)
    requires titulo.None? || forall i | 0 <= i < |titulo.value| :: IsWhiteSpace(titulo.value[i])
    ensures Create(id, titulo, diretor, dataLancamento, avaliacao) == Failure(TituloInvalido)
  {
  }

  /** A non-blank title longer than 100 code units fails with `TituloTamanhoMaximo`,
      even when the date would fail too. */
  lemma LongTitleFails(id: Guid, titulo: NetString, diretor: Option<NetString>,
                       dataLancamento: DateTime, avaliacao: real)
    requires |titulo| > MaxTextLength && exists i | 0 <= i < |titulo| :: !IsWhiteSpace(titulo[i])
    ensures Create(id, Some(titulo), diretor, dataLancamento, avaliacao) == Failure(TituloTamanhoMaximo)
  {
  }

  /** Neither the director nor the rating has any influence on the outcome. */
  lemma DirectorAndRatingIgnored(id: Guid, titulo: Option<NetString>, dataLancamento: DateTime,
                                 d1: Option<NetString>, a1: real, d2: Option<NetString>, a2: real)
    ensures Create(id, titulo, d1, dataLancamento, a1).Success?
        <==> Create(id, titulo, d2, dataLancamento, a2).Success?
    ensures Create(id, titulo, d1, dataLancamento, a1).Failure? ==>
            Create(id, titulo, d1, dataLancamento, a1) == Create(id, titulo, d2, dataLancamento, a2)
  {
  }

  /** With an accepted title, a date given by the calendar fails exactly
      when it falls in a year before 1895; 1895-01-01 00:00 itself passes. */
  lemma ReleaseYearBoundary(id: Guid, titulo: Option<NetString>, diretor: Option<NetString>,
                            date: Calendar, avaliacao: real)
    requires TituloAccepted(titulo) && ValidCalendar(date)
    ensures Create(id, titulo, diretor, ToDateTime(date), avaliacao)
         == if date.year < 1895 then Failure(DataLancamentoInvalida)
            else Success(Filme(id, titulo, diretor, ToDateTime(date), avaliacao))
  {
    ToDateTimeOrder(date, FirstRelease);
  }

  /** Two films are equal entities exactly when their `Id`s are equal,
      whatever their other properties. */
  lemma FilmeEqualityIsIdEquality(f1: Filme, f2: Filme)
    ensures EqualsEntity(AsEntity(f1), Some(AsEntity(f2))) <==> f1.id == f2.id
    ensures EqualsObject(AsEntity(f1), EntityObject(AsEntity(f2))) <==> f1.id == f2.id
  {
  }

  // ----- concrete cases -------------------------------------------------

  /** The title "a" repeated `n` times. */
  function Repeated(n: nat): (t: NetString)
    ensures |t| == n && forall i | 0 <= i < n :: t[i] == 0x61
  {
    seq(n, _ => 0x61)
  }

  /** 100 code units pass the length check; 101 do not, and the length error
      is reported even with a date from 1800. */
  lemma TitleLengthBoundary(id: Guid, diretor: Option<NetString>, avaliacao: real)
    ensures Create(id, Some(Repeated(100)), diretor, ReleaseCutoff(), avaliacao).Success?
    ensures Create(id, Some(Repeated(101)), diretor, ToDateTime(Calendar(1800, 6, 1, 0)), avaliacao)
            == Failure(TituloTamanhoMaximo)
  {
  }

  /** An empty title fails, and a title of spaces and a tab fails, with `TituloInvalido`. */
  lemma EmptyTitleExamples(id: Guid, diretor: Option<NetString>, dataLancamento: DateTime, avaliacao: real)
    ensures Create(id, Some([]), diretor, dataLancamento, avaliacao) == Failure(TituloInvalido)
    ensures Create(id, Some([0x20, 0x09, 0x20]), diretor, dataLancamento, avaliacao) == Failure(TituloInvalido)
    ensures Create(id, None, diretor, dataLancamento, avaliacao) == Failure(TituloInvalido)
  {
  }

  /** 1894-12-31 23:59 fails with `DataLancamentoInvalida`; 1895-01-01 passes. */
  lemma ReleaseDateExamples(id: Guid, diretor: Option<NetString>, avaliacao: real)
    ensures Create(id, Some(Repeated(6)), diretor,
                   ToDateTime(Calendar(1894, 12, 31, TicksPerDay - 1)), avaliacao)
            == Failure(DataLancamentoInvalida)
    ensures Create(id, Some(Repeated(6)), diretor, ToDateTime(Calendar(1895, 1, 1, 0)), avaliacao).Success?
  {
  }

  // ----- the factory as evidently intended --------------------------------

  /** The guard for `e` with the director guards testing the director and the
      rating guard rejecting values outside [0, 5]. */
  predicate IntendedGuard(e: FilmeError, titulo: Option<NetString>, diretor: Option<NetString>,
                          dataLancamento: DateTime, avaliacao: real)
  {
    match e
    case DiretorInvalido => IsNullOrWhiteSpace(diretor)
    case DiretorTamanhoMaximo => diretor.Some? && |diretor.value| > MaxTextLength
    case AvaliacaoInvalida => avaliacao < 0.0 || avaliacao > 5.0
    case _ => Guard(e, titulo, diretor, dataLancamento, avaliacao)
  }

  /** `Create` with the two defects corrected: the director is checked like the
      title, and a rating outside [0, 5] is refused. */
  function CreateIntended(id: Guid, titulo: Option<NetString>, diretor: Option<NetString>,
                          dataLancamento: DateTime, avaliacao: real): (r: Result<Filme, FilmeError>)
    ensures r.Success? <==> && TituloAccepted(titulo) && TituloAccepted(diretor)
                            && !Less(dataLancamento, ReleaseCutoff())
                            && 0.0 <= avaliacao <= 5.0
    ensures r.Success? ==> r.value == Filme(id, titulo, diretor, dataLancamento, avaliacao)
    ensures r.Failure? ==> IntendedGuard(r.error, titulo, diretor, dataLancamento, avaliacao)
    ensures r.Failure? ==> forall e :: IntendedGuard(e, titulo, diretor, dataLancamento, avaliacao) ==>
                                       Rank(r.error) <= Rank(e)
  {
    if IsNullOrWhiteSpace(titulo) then Failure(TituloInvalido)
    else if |titulo.value| > MaxTextLength then Failure(TituloTamanhoMaximo)
    else if IsNullOrWhiteSpace(diretor) then Failure(DiretorInvalido)
    else if |diretor.value| > MaxTextLength then Failure(DiretorTamanhoMaximo)
    else if Less(dataLancamento, ReleaseCutoff()) then Failure(DataLancamentoInvalida)
    else if avaliacao < 0.0 || avaliacao > 5.0 then Failure(AvaliacaoInvalida)
    else Success(Filme(id, titulo, diretor, dataLancamento, avaliacao))
  }

  /** The corrected factory only refuses more: whatever it accepts, `Create`
      accepts with the same film. */
  lemma IntendedIsStricter(id: Guid, titulo: Option<NetString>, diretor: Option<NetString>,
                           dataLancamento: DateTime, avaliacao: real)
    requires CreateIntended(id, titulo, diretor, dataLancamento, avaliacao).Success?
    ensures Create(id, titulo, diretor, dataLancamento, avaliacao)
         == CreateIntended(id, titulo, diretor, dataLancamento, avaliacao)
  {
  }

  /** As written, a null director is accepted; the intended factory reports `DiretorInvalido`. */
  lemma DirectorDefectWitness(id: Guid)
    ensures Create(id, Some(Repeated(6)), None, ReleaseCutoff(), 3.0).Success?
    ensures CreateIntended(id, Some(Repeated(6)), None, ReleaseCutoff(), 3.0) == Failure(DiretorInvalido)
  {
  }

  /** As written, ratings -10 and 10 are accepted; the intended factory reports `AvaliacaoInvalida`. */
  lemma RatingDefectWitness(id: Guid)
    ensures Create(id, Some(Repeated(6)), Some(Repeated(3)), ReleaseCutoff(), -10.0).Success?
    ensures Create(id, Some(Repeated(6)), Some(Repeated(3)), ReleaseCutoff(), 10.0).Success?
    ensures CreateIntended(id, Some(Repeated(6)), Some(Repeated(3)), ReleaseCutoff(), -10.0)
            == Failure(AvaliacaoInvalida)
    ensures CreateIntended(id, Some(Repeated(6)), Some(Repeated(3)), ReleaseCutoff(), 10.0)
            == Failure(AvaliacaoInvalida)
  {
  }
}
