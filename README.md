# Domain validation: the film factory and entity identity

A Dafny model of the two pieces of logic in the `DomainValidation` C# project:

- `Filme.Create`, the factory of the film entity. It runs a fixed sequence of
  guards over the title, director, release date and rating. It throws a
  `FilmeDomainException` for the first guard that holds, or else builds the film.
  The model is a function returning `Result<Filme, FilmeError>`. A thrown
  exception becomes `Failure(kind)`, with one `FilmeError` constructor per kind.
- `Entity`, the base of every entity. Two entities are equal when they have the
  same concrete runtime type and the same `Id`. The hash depends on the `Id`
  alone. `==` is false as soon as either operand is null, and `!=` negates it.

The model reproduces the factory **as written**. Its director guards re-test the
title, and its rating guard (`< 0 && > 5`) can never hold. So only the title and
the release date are really checked (`Entities.Create`). The corrected factory is
modelled beside it (see "## Findings").

Modules, one per concern:

- `Wrappers` — `Option` (a .NET reference that may be null) and `Result`.
- `DotNet` — the library behaviour the code relies on:
  - `string` as a sequence of UTF-16 code units, so `Length` counts code units.
  - `char.IsWhiteSpace` and `string.IsNullOrWhiteSpace`.
  - `Guid` as an opaque 128-bit value.
  - `DateTime` as a tick count, compared by ticks. Calendar dates map to ticks by
    .NET's day-number formula. A lemma proves that tick order is the
    lexicographic (year, month, day, time) order.
- `Exceptions` — the six error kinds and their fixed messages.
- `Primitives` — `Entity`, `Equals(object)`, `Equals(Entity)`, `GetHashCode`, `==`, `!=`.
  - `GetType()` becomes an explicit `RuntimeType` tag.
  - An `object` argument is `Null`, an entity, or some other object.
- `Entities` — `Filme`, `Create` and its lemmas, and the corrected `CreateIntended`.

## Model

| member | source | states |
|---|---|---|
| `Entities.Create` | DomainValidation/DomainValidation/Entities/Filme.cs:24-46 | succeeds exactly when the title is non-null, not blank, at most 100 code units, and the date is not before 1895-01-01; the director and rating play no part; it never fails with `DiretorInvalido`, `DiretorTamanhoMaximo` or `AvaliacaoInvalida`; on success the film's `Id`, `Titulo`, `Diretor`, `DataLancamento`, `Avaliacao` are the arguments |
| `Entities.CreateReportsFirstGuard` | DomainValidation/DomainValidation/Entities/Filme.cs:26-45 | taking each guard's condition on its own, `Create` succeeds iff no guard holds, and otherwise fails with a guard that holds and comes no later in source order than any other that holds |
| `Entities.BlankTitleFails` | DomainValidation/DomainValidation/Entities/Filme.cs:26-27 | a null, empty or white-space-only title yields `TituloInvalido`, whatever the other arguments |
| `Entities.LongTitleFails` | DomainValidation/DomainValidation/Entities/Filme.cs:29-30 | a title with a non-white code unit and more than 100 code units yields `TituloTamanhoMaximo`, whatever the date and rating |
| `Entities.TitleLengthBoundary` | DomainValidation/DomainValidation/Entities/Filme.cs:29-30 | a 100-unit title is accepted; a 101-unit title fails with `TituloTamanhoMaximo` even with a release date in 1800 |
| `Entities.EmptyTitleExamples` | DomainValidation/DomainValidation/Entities/Filme.cs:26-27 | the empty title, a title of spaces and a tab, and a null title all yield `TituloInvalido` |
| `Entities.DirectorAndRatingIgnored` | DomainValidation/DomainValidation/Entities/Filme.cs:32-42 | changing the director or the rating never changes whether `Create` succeeds, nor the error it reports |
| `Entities.ReleaseCutoff` | DomainValidation/DomainValidation/Entities/Filme.cs:38 | `new DateTime(1895, 01, 01)` is 691769 days of ticks after 0001-01-01 |
| `Entities.ReleaseYearBoundary` | DomainValidation/DomainValidation/Entities/Filme.cs:38-45 | with an accepted title, a calendar date fails with `DataLancamentoInvalida` iff its year is before 1895, and otherwise yields the film of the arguments; 1895-01-01 00:00 is accepted |
| `Entities.ReleaseDateExamples` | DomainValidation/DomainValidation/Entities/Filme.cs:38-39 | 1894-12-31 at the last tick of the day fails with `DataLancamentoInvalida`; 1895-01-01 succeeds |
| `Entities.FilmeEqualityIsIdEquality` | DomainValidation/DomainValidation/Primitives/Entity.cs:7-35 | two films are equal entities, under either `Equals`, iff their `Id`s are equal, whatever their title, director, date or rating |
| `Entities.CreateIntended` | DomainValidation/DomainValidation/Entities/Filme.cs:24-46 | the corrected factory succeeds iff title and director are both non-blank and at most 100 units, the date is not before 1895-01-01 and the rating is in [0, 5]; on failure it reports a guard that holds, and no guard that holds comes earlier in source order |
| `Entities.IntendedIsStricter` | DomainValidation/DomainValidation/Entities/Filme.cs:24-46 | whatever the corrected factory accepts, `Create` accepts with the same film |
| `Entities.DirectorDefectWitness` | DomainValidation/DomainValidation/Entities/Filme.cs:32-33 | a null director is accepted by `Create` but refused with `DiretorInvalido` by the corrected factory |
| `Entities.RatingDefectWitness` | DomainValidation/DomainValidation/Entities/Filme.cs:41-42 | ratings -10 and 10 are accepted by `Create` but refused with `AvaliacaoInvalida` by the corrected factory |
| `DotNet.IsNullOrWhiteSpace` | DomainValidation/DomainValidation/Entities/Filme.cs:26 | true iff the string is null or every code unit is white space; false iff non-null with some non-white code unit |
| `DotNet.AllWhiteSpace` | DomainValidation/DomainValidation/Entities/Filme.cs:32 | the front-to-back scan returns true iff every code unit is white space |
| `DotNet.ToDateTime` | DomainValidation/DomainValidation/Entities/Filme.cs:38 | every valid calendar point from year 1 to 9999 maps to a tick count within `DateTime`'s range |
| `DotNet.ToDateTimeOrder` | DomainValidation/DomainValidation/Entities/Filme.cs:38 | `<` on the ticks of two valid calendar points is exactly their lexicographic (year, month, day, time of day) order |
| `Primitives.EqualsEntity` | DomainValidation/DomainValidation/Primitives/Entity.cs:26-35 | false for null; for a non-null entity true iff it has the same concrete type and the same `Id` |
| `Primitives.EqualsObject` | DomainValidation/DomainValidation/Primitives/Entity.cs:7-19 | true iff the object is an entity and `Equals(Entity)` holds for it, so the two overloads agree |
| `Primitives.Eq` | DomainValidation/DomainValidation/Primitives/Entity.cs:37-38 | true only when both operands are non-null, and then iff they have the same concrete type and `Id` |
| `Primitives.Ne` | DomainValidation/DomainValidation/Primitives/Entity.cs:40-41 | the negation of `==`; true whenever an operand is null |
| `Primitives.EqualsNullIsFalse` | DomainValidation/DomainValidation/Primitives/Entity.cs:9-10 | both `Equals` overloads return false for null |
| `Primitives.DifferentTypeNotEqual` | DomainValidation/DomainValidation/Primitives/Entity.cs:12-13 | entities of different concrete types are unequal under both overloads, even with the same `Id` |
| `Primitives.EntityPatternIsRedundant` | DomainValidation/DomainValidation/Primitives/Entity.cs:15-16 | for well-typed objects, once the runtime types match the object is an entity, so the `is not Entity` test never decides |
| `Primitives.EqualsReflexive` | DomainValidation/DomainValidation/Primitives/Entity.cs:26-35 | every entity equals itself |
| `Primitives.EqualsSymmetric` | DomainValidation/DomainValidation/Primitives/Entity.cs:26-35 | `a.Equals(b)` iff `b.Equals(a)` |
| `Primitives.EqualsTransitive` | DomainValidation/DomainValidation/Primitives/Entity.cs:26-35 | `a.Equals(b)` and `b.Equals(c)` give `a.Equals(c)` |
| `Primitives.EqualsImpliesEqualHash` | DomainValidation/DomainValidation/Primitives/Entity.cs:21-24 | equal entities have equal hash codes, for every `Guid` hash function |
| `Primitives.NullOperands` | DomainValidation/DomainValidation/Primitives/Entity.cs:37-41 | `null == null` is false and `null != null` is true |
| `Primitives.EqMatchesEquals` | DomainValidation/DomainValidation/Primitives/Entity.cs:37-38 | on two non-null entities `==` is `Equals`, and it is symmetric |

## Left out

- The exception classes (`DomainException`, `FilmeDomainException`, `DomainExceptionError`) are plumbing. A throw is modelled as a `Failure` carrying the error kind. The messages are kept as constants in `Exceptions.Message`.
- The public setters of `Filme` (Filme.cs:8-14) are not modelled. They are never called, and they would let a film break the rules `Create` checks. Films are immutable values here.
- `double` is modelled as `real`. NaN, infinities and rounding are not modelled. With NaN every comparison is false, so `Create` would still accept it.
- How a `Guid` is generated is not modelled. `Guid.GetHashCode` is a parameter of `Primitives.GetHashCode`, so the hash lemma holds for every hash function.
- `char.IsWhiteSpace` is written out as the fixed set of white-space code units. Changes to that set in later Unicode versions are not modelled.
- `DateTime.Kind` and the time-of-day breakdown into hours, minutes and seconds are not modelled. A `DateTime` is its tick count, and comparison ignores `Kind` as .NET does.
- The title-length guard would throw a `NullReferenceException` on a null title. The model does not include that exception, because the earlier blank check always catches a null title first.
- Runtime reflection is not modelled. `GetType()` is the explicit `RuntimeType` field. `Primitives.WellTyped` states the runtime's guarantee that an object is an `Entity` exactly when its type derives from `Entity`.

## Findings

| source | as written | input that shows it | evidently intended | confidence | as-written member | corrected member |
|---|---|---|---|---|---|---|
| DomainValidation/DomainValidation/Entities/Filme.cs:32-36 | the `DiretorInvalido` and `DiretorTamanhoMaximo` guards test `titulo` again, so the director is never checked | title "aaaaaa", director null, date 1895-01-01, rating 3 is accepted | the director is checked like the title (non-blank, at most 100 units) | high (not executed) | `Entities.DirectorDefectWitness` | `Entities.CreateIntended` |
| DomainValidation/DomainValidation/Entities/Filme.cs:41 | `avaliacao < 0 && avaliacao > 5` never holds, so no rating is refused | rating -10 or 10 with an otherwise valid film is accepted | a rating below 0 or above 5 is refused (an `or`, not an `and`) | high (not executed) | `Entities.RatingDefectWitness` | `Entities.CreateIntended` |

`Entities.Create` is kept as written because it is the behaviour the code has.
`Entities.CreateIntended` is the corrected definition, and `Entities.IntendedIsStricter` relates the two.
