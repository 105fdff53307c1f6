# Aquarium backend core, modelled in Dafny

This project models the logic at the centre of a NestJS backend for aquarium keepers, who
manage tanks, the fish in them and a catalogue of fish species.

- **Entities.** `BaseEntity`, `Tank`, `Fish`, `User` and `FishSpecies` are Dafny classes
  whose mutators say exactly which fields change. `BaseEntity` carries a ghost `touches`
  counter, so that "touches once" can be stated. The id and the creation time are `const`
  fields, so no operation can change them.
- **Email value object.** Lower-casing, trimming and the `^[^\s@]+@[^\s@]+\.[^\s@]+$` check.
- **Bearer-token guard.** Token extraction and the allow or 401 decision.
- **Request validation.** The class-validator decorators on the tank and fish-species DTOs
  are modelled as a small decorator engine (`Validation`), plus an independent
  property-by-property predicate per form. Lemmas prove that the two accept the same bodies.
- **Output projections.** `fromEntity` and `fromEntities` for tanks, fish and fish species.
- **Containers.** The pagination containers and the response envelope.
- **Repositories.** The tank and fish-species repositories over an in-memory table: a
  `map<int, Row>` in a class, with an auto-increment counter.
- **Services.** The tank and fish services over those tables.

The clock is an explicit `now: Time` argument wherever the source calls `new Date()`.
JavaScript numbers that are measurements are `real`, because they are only compared, and ids
are `int`. A thrown exception is an `Err` of a `Result`.

Several behaviours of the source are modelled as written, not as they may have been meant:

- `TankService.update` calls `updateType`, `updateStyle` and five more methods that the Tank
  entity does not have. The model raises the JavaScript `TypeError` ("tank.updateType is not a
  function") before anything is written, whenever one of those DTO properties is present.
- `TankRepository.update` never writes an undefined owner. So `removeFromUser` clears the owner
  on the loaded entity, but the stored row keeps it: `RemovedOwnerNotPersisted`,
  `TankService.RemoveFromUser`.
- `TankDto.fromEntity` and `FishSpeciesDto.fromEntity` read `created_at`/`updated_at`, which
  the entities do not have, so both timestamps in the output are absent.
- `TankService.findAll` insists on a paginated repository result, but the repository's
  `findByUserId` returns a plain array, so `findAll` always fails.
- The fish-species `toDomain` reads the columns `create_at`/`update_at`, while the tank and user
  repositories read `created_at`/`updated_at`. The model assumes the species table has no
  columns of those misspelled names (the database schema is not part of this model), so the
  stored timestamps are never read back and both become the read time.
- `FishService.create` saves every new fish under id 0, so a second create collides with the
  first (`IdInUse(0)`).
- `findCompatibleSpecies` compares range end points only. A stored range whose minimum exceeds
  its maximum is selected even though it contains no temperature at all
  (`InvertedRangeSelected`).

## Model

| member | source | states |
|---|---|---|
| BaseEntities.BaseEntity.constructor | src/domain/entities/base.entity.ts:6-10 | the id is stored; a supplied creation or update time is kept and an absent one becomes the current time |
| BaseEntities.BaseEntity.Touch | src/domain/entities/base.entity.ts:24-26 | the update time becomes the current time; id and creation time are `const`, so unchanged |
| TankEntity.Tank.constructor | src/domain/entities/tank.entity.ts:11-27 | name, three dimensions and owner are stored exactly as given, with no positivity check |
| TankEntity.Tank.UpdateDimensions | src/domain/entities/tank.entity.ts:45-50 | all three dimensions are replaced together; name and owner are unchanged; exactly one touch |
| TankEntity.Tank.UpdateName | src/domain/entities/tank.entity.ts:52-55 | only the name changes, with one touch |
| TankEntity.Tank.AssignToUser | src/domain/entities/tank.entity.ts:61-64 | the owner becomes the given user; name and dimensions are unchanged; one touch |
| TankEntity.Tank.RemoveFromUser | src/domain/entities/tank.entity.ts:66-69 | the owner is absent afterwards whatever it was, so a repeated call leaves it absent; one touch |
| FishEntity.Fish.constructor | src/domain/entities/fish.entity.ts:7-17 | name and species are stored as given; timestamps default to the current time |
| FishEntity.Fish.UpdateName | src/domain/entities/fish.entity.ts:28-31 | the name becomes the argument and the species is unchanged, so repeating it is idempotent; one touch |
| FishEntity.Fish.UpdateSpecies | src/domain/entities/fish.entity.ts:33-36 | the species becomes the argument and the name is unchanged; one touch |
| UserEntity.User.constructor | src/domain/entities/user.entity.ts:7-21 | the subject id and optional display name are stored; the subject id is `const`, so no operation changes it |
| UserEntity.User.UpdateProfile | src/domain/entities/user.entity.ts:30-33 | the display name becomes the argument even when it is absent, which clears it; one touch |
| FishSpeciesEntity.FishSpecies.constructor | src/domain/entities/fish-species.entity.ts:44-107 | required arguments are stored as given; omitted ones default to aliases [], bioload 5, flow Moderate, not schooling, school size 1, plant safe, no digging, no jumping; a supplied falsy value is kept; inverted ranges are stored |
| FishSpeciesEntity.FishSpecies.UpdateIdentity | src/domain/entities/fish-species.entity.ts:212-223 | writes exactly the present identity arguments, leaves aliases and every other group unchanged, and touches even when nothing is present |
| FishSpeciesEntity.FishSpecies.AddAlias | src/domain/entities/fish-species.entity.ts:225-230 | the alias is present afterwards; if it was absent it is appended with one touch, otherwise nothing changes, not even the update time; a duplicate-free list stays duplicate-free |
| FishSpeciesEntity.FishSpecies.RemoveAlias | src/domain/entities/fish-species.entity.ts:232-238 | only the first occurrence is removed and the rest keep their order, with one touch; an absent alias changes nothing; on a duplicate-free list the alias is gone afterwards |
| FishSpeciesEntity.FishSpecies.UpdateWaterParameters | src/domain/entities/fish-species.entity.ts:241-256 | writes exactly the present water parameters, with no min/max check; other groups unchanged; always touches |
| FishSpeciesEntity.FishSpecies.UpdateTankRequirements | src/domain/entities/fish-species.entity.ts:259-270 | writes exactly the present tank requirements; other groups unchanged; always touches |
| FishSpeciesEntity.FishSpecies.UpdateBehavior | src/domain/entities/fish-species.entity.ts:273-292 | writes exactly the present behaviour fields, false values included; other groups unchanged; always touches |
| FishSpeciesEntity.FishSpecies.UpdateDescription | src/domain/entities/fish-species.entity.ts:295-298 | only the description changes, with one touch |
| FishSpeciesEntity.FirstIndex | src/domain/entities/fish-species.entity.ts:233-234 | `indexOf`: -1 exactly when the alias is absent, otherwise the position of its first occurrence |
| FishSpeciesEntity.RemoveFirst | src/domain/entities/fish-species.entity.ts:232-238 | `splice(indexOf(a), 1)`: at most one element goes, and nothing new appears; its exact effect is stated by `RemoveFirstDropsOneCopy` |
| FishSpeciesEntity.RemoveFirstDropsOneCopy | src/domain/entities/fish-species.entity.ts:232-238 | removing a present alias drops exactly one copy: one element shorter, same multiset minus that alias |
| FishSpeciesEntity.RemoveFirstKeepsNoDuplicates | src/domain/entities/fish-species.entity.ts:232-238 | on a duplicate-free list the removed alias is gone and the list stays duplicate-free |
| FishSpeciesEntity.AppendFreshAlias | src/domain/entities/fish-species.entity.ts:225-230 | appending an absent alias keeps a duplicate-free list duplicate-free |
| Enums.NamesIdentifyMembers | src/domain/enums/fish-species.enum.ts:1-23 | every member's string is among its enumeration's values, and distinct members have distinct strings |
| DomainErrors.NatToString | src/domain/exceptions/domain.exception.ts:11 | the decimal rendering of an id: non-empty, digits only, no leading zero |
| DomainErrors.NatToStringRoundTrip | src/domain/exceptions/domain.exception.ts:11 | the rendered id reads back as the same number |
| DomainErrors.IntToStringInjective | src/domain/exceptions/domain.exception.ts:11 | distinct ids, negative ones included, render differently |
| DomainErrors.Message | src/domain/exceptions/domain.exception.ts:9-14 | a not-found message starts with the entity name; a validation failure is its own message |
| DomainErrors.NotFoundMessageNamesTheId | src/domain/exceptions/domain.exception.ts:9-14 | two not-found messages for the same entity are equal only for the same id |
| DomainErrors.NotFoundMessageExample | src/domain/exceptions/domain.exception.ts:9-14 | the message for tank 42 is "Tank with id 42 not found" |
| EmailValue.LowerCase | src/domain/value-objects/email.value-object.ts:18 | `toLowerCase` on ASCII: same length, each letter lowered, everything else kept |
| EmailValue.SkipLeading | src/domain/value-objects/email.value-object.ts:18 | the end of the leading whitespace run that `trim` removes |
| EmailValue.SkipTrailing | src/domain/value-objects/email.value-object.ts:18 | the start of the trailing whitespace run that `trim` removes |
| EmailValue.Normalize | src/domain/value-objects/email.value-object.ts:18 | lower-case, then trim; never longer than the input (its shape is stated by `NormalizedShape`) |
| EmailValue.IsValid | src/domain/value-objects/email.value-object.ts:25-28 | the format check as a scan; an accepted string contains '@' and has at least five characters (equivalence with the regular expression is `IsValidIffMatchesPattern`) |
| EmailValue.Create | src/domain/value-objects/email.value-object.ts:17-23 | a created email holds the normalised input and passes the check; a refusal is the validation failure "Invalid email format" |
| EmailValue.IsValidIffMatchesPattern | src/domain/value-objects/email.value-object.ts:25-28 | the executable check accepts exactly the strings the regular expression matches (atom, '@', atom, '.', atom) |
| EmailValue.ValidMatchesPattern | src/domain/value-objects/email.value-object.ts:26 | every string the check accepts matches the pattern |
| EmailValue.MatchesPatternValid | src/domain/value-objects/email.value-object.ts:26 | every string matching the pattern is accepted by the check |
| EmailValue.CreateMatchesPattern | src/domain/value-objects/email.value-object.ts:17-23 | creation succeeds exactly when the lower-cased, trimmed input matches the pattern, stores that normalised string, and otherwise fails with "Invalid email format" |
| EmailValue.TrimEnds | src/domain/value-objects/email.value-object.ts:18 | the trimmed string is a contiguous piece of the input, everything cut off is whitespace, and it has no whitespace at either end |
| EmailValue.TrimAll | src/domain/value-objects/email.value-object.ts:18 | an all-whitespace string trims to the empty string |
| EmailValue.TrimFixed | src/domain/value-objects/email.value-object.ts:18 | a string with no whitespace at either end is its own trim |
| EmailValue.TrimPadded | src/domain/value-objects/email.value-object.ts:18 | whitespace added around a string does not change its trim |
| EmailValue.NormalizeFixed | src/domain/value-objects/email.value-object.ts:18 | a string without upper-case letters or outer whitespace is already normalised |
| EmailValue.NormalizedShape | src/domain/value-objects/email.value-object.ts:18 | a normalised string has no upper-case letter and no whitespace at either end |
| EmailValue.NormalizeIdempotent | src/domain/value-objects/email.value-object.ts:18 | normalising twice equals normalising once |
| EmailValue.CreateIdempotent | src/domain/value-objects/email.value-object.ts:17-23 | creating from an accepted value yields that same value |
| EmailValue.CreateIgnoresCase | src/domain/value-objects/email.value-object.spec.ts:83-93 | inputs differing only in letter case give the same outcome |
| EmailValue.CreateIgnoresPadding | src/domain/value-objects/email.value-object.spec.ts:83-93 | inputs differing only in surrounding whitespace give the same outcome |
| EmailValue.ValidHasAcceptedShape | src/domain/value-objects/email.value-object.ts:26 | an accepted string has exactly one '@', a non-empty local part, no whitespace, and a '.' in the domain with a character on each side |
| EmailValue.AcceptedShape | src/domain/value-objects/email.value-object.ts:17-26 | every created email value has that accepted shape |
| EmailValue.NoAtInvalid | src/domain/value-objects/email.value-object.ts:26 | a string without '@' is refused |
| EmailValue.EdgeAtInvalid | src/domain/value-objects/email.value-object.ts:26 | a string starting or ending with '@' is refused |
| EmailValue.WhitespaceInvalid | src/domain/value-objects/email.value-object.ts:26 | a string with whitespace anywhere is refused |
| EmailValue.RejectsWithoutAt | src/domain/value-objects/email.value-object.ts:17-23 | an input with no '@' after normalisation fails with "Invalid email format" |
| EmailValue.RejectsEmptyPart | src/domain/value-objects/email.value-object.ts:17-23 | an input with nothing before or after its '@' fails with "Invalid email format" |
| EmailValue.RejectsInnerWhitespace | src/domain/value-objects/email.value-object.ts:17-23 | whitespace that survives trimming makes the input fail |
| EmailValue.RejectsEmpty | src/domain/value-objects/email.value-object.spec.ts:35-38 | "" is rejected |
| EmailValue.RejectsMissingDomain | src/domain/value-objects/email.value-object.spec.ts:30-33 | "test@" is rejected |
| EmailValue.RejectsBareAt | src/domain/value-objects/email.value-object.spec.ts:49-51 | "@" is rejected |
| EmailValue.RejectsMissingLocalPart | src/domain/value-objects/email.value-object.spec.ts:53-56 | "@example.com" is rejected |
| EmailValue.RejectsDottedWithoutAt | src/domain/value-objects/email.value-object.spec.ts:21-28 | "invalid.email.com" is rejected |
| EmailValue.RejectsSpaceBeforeAt | src/domain/value-objects/email.value-object.spec.ts:40-47 | "test @example.com" is rejected |
| EmailValue.AcceptsUpperCase | src/domain/value-objects/email.value-object.spec.ts:11-19 | "TEST@EXAMPLE.COM" is accepted as "test@example.com" |
| EmailValue.AcceptsPaddedUpperCase | src/domain/value-objects/email.value-object.spec.ts:83-93 | "  TEST@EXAMPLE.COM  " is accepted as "test@example.com" |
| JwtGuard.Split | src/presentation/guards/jwt-auth.guard.ts:36 | `split(' ')`: at least one piece, and no piece contains the separator |
| JwtGuard.JoinSplit | src/presentation/guards/jwt-auth.guard.ts:36 | splitting loses nothing: the pieces joined with the separator give the header back |
| JwtGuard.SplitJoin | src/presentation/guards/jwt-auth.guard.ts:36 | separator-free pieces are recovered by splitting what joining them gives |
| JwtGuard.ExtractToken | src/presentation/guards/jwt-auth.guard.ts:30-38 | a token is found only in a present, non-empty header, and contains no space |
| JwtGuard.FoundTokenHeader | src/presentation/guards/jwt-auth.guard.ts:30-38 | a found token comes from a header of the form "Bearer", the token, then any further space-separated pieces |
| JwtGuard.BearerHeaderFound | src/presentation/guards/jwt-auth.guard.ts:30-38 | every header of that form yields that token |
| JwtGuard.ExtractTokenFinds | src/presentation/guards/jwt-auth.guard.ts:30-38 | a token is found exactly when a header is present and has that form |
| JwtGuard.BearerRoundTrip | src/presentation/guards/jwt-auth.guard.ts:36-37 | "Bearer " plus a non-empty, space-free token yields that token |
| JwtGuard.ExtraPiecesIgnored | src/presentation/guards/jwt-auth.guard.ts:36-37 | "Bearer a b" yields "a" |
| JwtGuard.SchemeIsCaseSensitive | src/presentation/guards/jwt-auth.guard.ts:37 | any first piece other than exactly "Bearer" yields no token |
| JwtGuard.BareSchemeHasNoToken | src/presentation/guards/jwt-auth.guard.ts:36-37 | "Bearer" alone yields no token |
| JwtGuard.EmptySecondPiece | src/presentation/guards/jwt-auth.guard.ts:36-37 | "Bearer " and "Bearer  x" yield an empty token |
| JwtGuard.Authenticate | src/presentation/guards/jwt-auth.guard.ts:13-28 | a refusal carries one of the two guard messages; an accepted request yields what the validator returned for the extracted token |
| JwtGuard.AuthenticateOutcomes | src/presentation/guards/jwt-auth.guard.ts:13-28 | "No token provided" exactly when the token is absent or empty; "Invalid or expired token" exactly when the validator refuses a present token; success exactly when it accepts, with the user it returned |
| JwtGuard.NoHeaderRefused | src/presentation/guards/jwt-auth.guard.ts:17-19 | without an Authorization header the guard refuses with "No token provided" |
| JwtGuard.MalformedBearerRefused | src/presentation/guards/jwt-auth.guard.ts:17-19 | "Bearer", "Bearer " and "Bearer  x" are refused with "No token provided", whatever the validator says |
| JwtGuard.Request.constructor | src/presentation/guards/jwt-auth.guard.ts:14 | a request carries its Authorization header and no user yet |
| JwtGuard.CanActivate | src/presentation/guards/jwt-auth.guard.ts:13-28 | on success the validated user is attached to the request and the result is true; on refusal the 401 is returned and the request is left alone |
| Validation.Holds | src/application/dtos/tank.dto.ts:13-65 | the test of each decorator, with `@MinLength`/`@MaxLength` measured by `JsLength`; no decorator accepts an undefined or null value, which is why `@IsOptional()` is needed |
| Validation.JsLength | src/application/dtos/tank.dto.ts:16 | the length `@MinLength`/`@MaxLength` compare: one per code point, U+FE0E and U+FE0F not counted; never more than the number of characters |
| Validation.JsLengthPlain | src/application/dtos/tank.dto.ts:16 | without variation selectors the measured length is the number of characters |
| Validation.JsLengthConcat | src/application/dtos/tank.dto.ts:16 | the measured length of a concatenation is the sum of the parts' lengths |
| Validation.VariationSelectorNotCounted | src/application/dtos/fish-species.dto.ts:92-94 | appending U+FE0F does not lengthen a string, and a lone U+FE0F passes `@IsNotEmpty` but fails `@MinLength(1)` |
| Validation.Failures | src/application/dtos/tank.dto.ts:13-65 | one violation at most per decorator |
| Validation.FailuresNone | src/application/dtos/tank.dto.ts:13-65 | a property has no violation exactly when every one of its decorators holds |
| Validation.FailuresReport | src/application/dtos/tank.dto.ts:13-65 | every failed decorator is reported, with its own custom message |
| Validation.FailuresSound | src/application/dtos/tank.dto.ts:13-65 | only failed decorators are reported |
| Validation.FieldViolations | src/application/dtos/tank.dto.ts:31-64 | an optional property that is not supplied is not checked; otherwise one violation at most per decorator |
| Validation.FieldAccepts | src/application/dtos/tank.dto.ts:31-64 | a property is accepted when it is optional and undefined or null, or when all its decorators hold |
| Validation.FieldReports | src/application/dtos/tank.dto.ts:19-29 | a supplied or required property reports each decorator it fails, with that decorator's message |
| Validation.FieldReportsOnlyFailures | src/application/dtos/tank.dto.ts:31-64 | an optional property that is not supplied reports nothing, and only failed decorators are reported |
| TankDtos.TextAccepts | src/application/dtos/tank.dto.ts:31-49 | an optional string property is accepted exactly when absent or a string whose `JsLength` is within its bound |
| TankDtos.DimensionAccepts | src/application/dtos/tank.dto.ts:19-29 | a dimension is accepted exactly when it is a number of at least 1, or absent in the update form |
| TankDtos.DimensionMessage | src/application/dtos/tank.dto.ts:19-29 | a supplied dimension below 1 is refused with that dimension's own message |
| TankDtos.NameAccepts | src/application/dtos/tank.dto.ts:14-17 | the create form accepts exactly a non-empty string of at most 100 counted characters (`JsLength`); the update form also accepts "" and an absent name |
| TankDtos.ExtraViolationsNone | src/application/dtos/tank.dto.ts:31-64 | the seven optional properties are accepted exactly when each is absent or within its type and bound (lengths by `JsLength`), with a water volume of at least 0 |
| TankDtos.CreateTankViolations | src/application/dtos/tank.dto.ts:13-65 | the CreateTankDto decorators, property by property in declared order; `CreateTankAccepts` proves they refuse exactly the bodies `ValidCreateTank` excludes |
| TankDtos.UpdateTankViolations | src/application/dtos/tank.dto.ts:69-124 | the UpdateTankDto decorators, property by property in declared order; `UpdateTankAccepts` proves they refuse exactly the bodies `ValidUpdateTank` excludes |
| TankDtos.ValidCreateTank | src/application/dtos/tank.dto.ts:13-65 | the create constraints stated property by property: a non-empty name of at most 100 counted characters, dimensions of at least 1, optional properties within bounds |
| TankDtos.ValidUpdateTank | src/application/dtos/tank.dto.ts:69-124 | the update constraints stated property by property: everything optional, a given name at most 100 counted characters, a given dimension at least 1 |
| TankDtos.CreateTankAccepts | src/application/dtos/tank.dto.ts:13-65 | the CreateTankDto decorators accept exactly the bodies the direct predicate describes |
| TankDtos.UpdateTankAccepts | src/application/dtos/tank.dto.ts:69-124 | the UpdateTankDto decorators accept exactly the bodies the direct predicate describes |
| TankDtos.CreateValidIsUpdateValid | src/application/dtos/tank.dto.ts:13-124 | whatever the create form accepts, the update form accepts |
| TankDtos.ZeroWidthRefused | src/application/dtos/tank.dto.ts:19-21 | a width of 0 is refused with "Width must be at least 1 cm" in both forms |
| TankDtos.ZeroHeightRefused | src/application/dtos/tank.dto.ts:23-25 | a height of 0 is refused with "Height must be at least 1 cm" in both forms |
| TankDtos.ZeroLengthRefused | src/application/dtos/tank.dto.ts:27-29 | a length of 0 is refused with "Length must be at least 1 cm" in both forms |
| TankDtos.SmallestTankAccepted | src/application/dtos/tank.dto.ts:56-59 | dimensions of 1 and a water volume of 0 are accepted |
| TankDtos.EmptyNameOnlyForUpdate | src/application/dtos/tank.dto.ts:69-124 | an empty update body and an empty name pass the update form; the create form refuses the empty name |
| TankDtos.MissingNameRefused | src/application/dtos/tank.dto.ts:14-17 | a create body without a name reports it as not a string and as empty |
| TankDtos.FromEntity | src/application/dtos/tank.dto.ts:146-164 | id, name, dimensions and owner are copied unchanged; the fields the entity lacks, and both timestamps, are absent |
| TankDtos.FromEntities | src/application/dtos/tank.dto.ts:167-169 | one DTO per tank, same length and order |
| FishSpeciesDtos.NameAccepts | src/application/dtos/fish-species.dto.ts:91-101 | a name is accepted exactly when it is a string of 1 to 100 counted characters (`JsLength`), or absent in the update form |
| FishSpeciesDtos.TextAccepts | src/application/dtos/fish-species.dto.ts:103-116 | an optional text property is accepted exactly when absent or a string whose `JsLength` is within its bound |
| FishSpeciesDtos.AliasesAccept | src/application/dtos/fish-species.dto.ts:103-116 | aliases are accepted exactly when absent or an array of strings |
| FishSpeciesDtos.RangeAccepts | src/application/dtos/fish-species.dto.ts:118-148 | a bounded number is accepted exactly when it lies within both bounds, or is optional and absent |
| FishSpeciesDtos.AtLeastAccepts | src/application/dtos/fish-species.dto.ts:150-156 | a number with a lower bound is accepted exactly when at least that bound, or optional and absent |
| FishSpeciesDtos.EnumAccepts | src/application/dtos/fish-species.dto.ts:164-178 | an enumeration is accepted exactly when it is one of the member strings, or optional and absent; the not-empty mark adds nothing |
| FishSpeciesDtos.FlagAccepts | src/application/dtos/fish-species.dto.ts:180-199 | a flag is accepted exactly when absent or a boolean |
| FishSpeciesDtos.DescriptionAccepts | src/application/dtos/fish-species.dto.ts:201-204 | a description is accepted exactly when it is a string of at least 10 counted characters, or absent in the update form |
| FishSpeciesDtos.IdentityAccepts | src/application/dtos/fish-species.dto.ts:91-116 | the identity decorators accept exactly what the direct predicate describes |
| FishSpeciesDtos.WaterAccepts | src/application/dtos/fish-species.dto.ts:118-148 | the water decorators accept exactly what the direct predicate describes |
| FishSpeciesDtos.RequirementsAccept | src/application/dtos/fish-species.dto.ts:150-166 | the tank-requirement decorators accept exactly what the direct predicate describes |
| FishSpeciesDtos.BehaviorAccepts | src/application/dtos/fish-species.dto.ts:168-199 | the behaviour decorators accept exactly what the direct predicate describes |
| FishSpeciesDtos.SpeciesViolations | src/application/dtos/fish-species.dto.ts:90-329 | the species decorators of either form, property by property in declared order; `SpeciesAccepts` proves they refuse exactly the bodies `ValidSpecies` excludes |
| FishSpeciesDtos.ValidSpecies | src/application/dtos/fish-species.dto.ts:90-329 | the species constraints stated group by group (identity, water, requirements, behaviour, description), string lengths counted as `JsLength` |
| FishSpeciesDtos.SpeciesAccepts | src/application/dtos/fish-species.dto.ts:90-329 | either form's decorators accept exactly the bodies the direct predicate describes |
| FishSpeciesDtos.CreateOkIsUpdateOk | src/application/dtos/fish-species.dto.ts:208-329 | every property group the create form accepts, the update form accepts |
| FishSpeciesDtos.CreateValidIsUpdateValid | src/application/dtos/fish-species.dto.ts:208-329 | whatever the create form accepts, the update form accepts |
| FishSpeciesDtos.EmptyUpdateAccepted | src/application/dtos/fish-species.dto.ts:208-329 | an empty update body is accepted |
| FishSpeciesDtos.InvertedRangeAccepted | src/application/dtos/fish-species.dto.ts:118-136 | no cross-field rule: swapping an accepted body's temperatures so that the minimum exceeds the maximum keeps it accepted |
| FishSpeciesDtos.ShortDescriptionRefused | src/application/dtos/fish-species.dto.ts:201-204 | a description shorter than 10 counted characters is refused in both forms |
| FishSpeciesDtos.MissingNamesRefused | src/application/dtos/fish-species.dto.ts:91-101 | the create form reports missing English and Vietnamese names |
| FishSpeciesDtos.CareLevelByName | src/application/dtos/fish-species.dto.ts:168-170 | every care level's exact name passes, and "easy" is refused |
| FishSpeciesDtos.HotWaterRefused | src/application/dtos/fish-species.dto.ts:118-126 | a maximum temperature of 51 is refused with the upper bound |
| FishSpeciesDtos.NegativePhRefused | src/application/dtos/fish-species.dto.ts:128-136 | a minimum pH of -1 is refused with the lower bound |
| FishSpeciesDtos.HardWaterRefused | src/application/dtos/fish-species.dto.ts:138-148 | a maximum hardness of 31 is refused with the upper bound |
| FishSpeciesDtos.ZeroBioloadRefused | src/application/dtos/fish-species.dto.ts:158-162 | a bioload of 0 is refused with the lower bound |
| FishSpeciesDtos.FromEntity | src/application/dtos/fish-species.dto.ts:52-82 | every domain field is copied one to one; both timestamps are absent |
| FishSpeciesDtos.FromEntities | src/application/dtos/fish-species.dto.ts:84-86 | one DTO per species, same length and order |
| Pagination.NewPaginationRequest | src/application/dtos/pagination.dto.ts:12-15 | an omitted page is 1 and an omitted limit 10; a supplied value is kept, 0 included |
| Pagination.RequestRoundTrip | src/application/dtos/pagination.dto.ts:12-15 | rebuilding a request from its own values gives it back, and omitting both equals supplying 1 and 10 |
| Pagination.RequestExamples | src/application/dtos/pagination.dto.ts:12-15 | no arguments gives (1, 10), (2, 25) is kept, and (0, 0) is kept |
| Pagination.Create | src/application/dtos/pagination.dto.ts:42-44 | exactly the given items, in order, and the given meta |
| Pagination.CreateIsInjective | src/application/dtos/pagination.dto.ts:37-44 | every result is what `create` makes of its own parts, and `create` determines its arguments |
| Pagination.MetaNotChecked | src/application/__tests__/pagination.dto.spec.ts:58-71 | the meta is stored unchecked: an empty page with total 0 and last page 1 is kept as is |
| Responses.Success | src/presentation/dto/response.dto.ts:9-11 | success is true, the data and message are the arguments, and there are no errors |
| Responses.Error | src/presentation/dto/response.dto.ts:13-15 | success is false, there is no data, and the message and errors are the arguments |
| Responses.FlagTellsFactory | src/presentation/dto/response.dto.ts:9-15 | for envelopes built by the factories, the flag is true exactly for those built by `success`, and each envelope is rebuilt from its own fields |
| TankRepositories.OwnerOf | src/infrastructure/repositories/tank.repository.ts:63 | a null or zero `user_id` means no owner; any other value is the owner |
| TankRepositories.RowView | src/infrastructure/repositories/tank.repository.ts:56-67 | the entity read from a row holds its id, name, dimensions and timestamps, and its owner as `OwnerOf` reads it |
| TankRepositories.ZeroOwnerReadsAsNone | src/infrastructure/repositories/tank.repository.ts:63 | a row owned by user 0 reads back unowned; an owner that is read back is the stored one |
| TankRepositories.PatchOf | src/infrastructure/repositories/tank.repository.ts:38-50 | the entity handed to `update` always supplies name and dimensions, and its owner only when it has one |
| TankRepositories.Patched | src/infrastructure/repositories/tank.repository.ts:38-50 | the row `update` leaves: each column the patch supplies is written, the others kept; its laws are `PatchedLaws` |
| TankRepositories.PatchedLaws | src/infrastructure/repositories/tank.repository.ts:38-50 | an empty patch writes nothing, a patch applied twice writes what it wrote once, and absent columns and the timestamps are unchanged |
| TankRepositories.OwnerNeverCleared | src/infrastructure/repositories/tank.repository.ts:46 | no patch clears a stored owner |
| TankRepositories.RemovedOwnerNotPersisted | src/infrastructure/repositories/tank.repository.ts:46 | writing back an entity read from a row with its owner removed leaves the row exactly as it was |
| TankRepositories.OwnedBy | src/infrastructure/repositories/tank.repository.ts:19-22 | the ids of exactly the rows whose `user_id` equals the user |
| TankRepositories.TankRepository.constructor | src/infrastructure/repositories/tank.repository.ts:6-7 | an empty table whose next id is 1 |
| TankRepositories.TankRepository.ToDomain | src/infrastructure/repositories/tank.repository.ts:56-67 | a fresh entity whose observable state is the row read by `RowView` |
| TankRepositories.TankRepository.FindById | src/infrastructure/repositories/tank.repository.ts:9-12 | nothing exactly when the id has no row; otherwise a fresh entity for that row |
| TankRepositories.TankRepository.OwnedIds | src/infrastructure/repositories/tank.repository.ts:19-22 | exactly the user's row ids, each once, in increasing order |
| TankRepositories.TankRepository.ToDomainAll | src/infrastructure/repositories/tank.repository.ts:21 | one fresh entity per id, in the same order, each reading its row |
| TankRepositories.TankRepository.FindByUserId | src/infrastructure/repositories/tank.repository.ts:19-22 | one fresh entity for each row whose `user_id` equals the user, and for no other row, each once |
| TankRepositories.TankRepository.Save | src/infrastructure/repositories/tank.repository.ts:25-36 | a new row under the next id holding name, dimensions and owner, stamped now, and the entity read back from it |
| TankRepositories.TankRepository.Update | src/infrastructure/repositories/tank.repository.ts:38-50 | a missing row is an error that writes nothing; otherwise only the patch's columns are written and the row is read back |
| TankRepositories.TankRepository.Delete | src/infrastructure/repositories/tank.repository.ts:52-54 | that row and no other is removed; a missing row is an error |
| TankServices.MissingMethod | src/application/services/tank.service.ts:76-82 | no entity method is missing exactly when none of the seven extra DTO properties is present |
| TankServices.NotAFunction | src/application/services/tank.service.ts:76-82 | the JavaScript TypeError text for calling a method the tank does not have, "tank.<method> is not a function" |
| TankServices.UpdatedRow | src/application/services/tank.service.ts:66-85 | the name is applied only when a non-empty string, the dimensions only when all three are given, and owner and timestamps are kept |
| TankServices.IneffectiveUpdate | src/application/services/tank.service.ts:72-75 | without a usable name and a full dimension triple, the row is unchanged |
| TankServices.UpdateIdempotent | src/application/services/tank.service.ts:66-85 | applying the same update twice stores what applying it once stores |
| TankServices.WriteBack | src/application/services/tank.service.ts:84 | writing back a loaded entity whose name and dimensions were set changes exactly those columns |
| TankServices.ViewDto | src/application/dtos/tank.dto.ts:146-164 | the DTO of an entity state: id, name, dimensions and owner copied, timestamps absent |
| TankServices.FromEntityOfView | src/application/dtos/tank.dto.ts:146-164 | the projection depends only on the entity's observable state |
| TankServices.ListDtos | src/application/services/tank.service.ts:54-64 | either shape of repository result is projected tank by tank |
| TankServices.PaginatedOrError | src/application/services/tank.service.ts:37-43 | succeeds exactly for a paginated repository result; a plain array gives "Expected paginated result from repository" |
| TankServices.PaginatedOrErrorCases | src/application/services/tank.service.ts:37-43 | a plain array is always refused with "Expected paginated result from repository"; a page is passed on with its meta and its tanks projected in order |
| TankServices.TankService.constructor | src/application/services/tank.service.ts:8-10 | the service holds the given repository |
| TankServices.TankService.FindById | src/application/services/tank.service.ts:46-52 | "Tank with id <id> not found" for a missing row; otherwise the row's DTO |
| TankServices.TankService.FindByUserId | src/application/services/tank.service.ts:54-64 | the DTOs of exactly the user's tanks, each once |
| TankServices.TankService.FindAll | src/application/services/tank.service.ts:33-44 | always fails with "Expected paginated result from repository", because the repository returns a plain array |
| TankServices.TankService.Update | src/application/services/tank.service.ts:66-86 | not-found, or the TypeError of the first missing entity method, writes nothing; otherwise the row becomes `UpdatedRow` and its DTO is returned |
| TankServices.TankService.Delete | src/application/services/tank.service.ts:88-94 | not-found writes nothing; otherwise exactly that row is removed |
| TankServices.TankService.AssignToUser | src/application/services/tank.service.ts:96-105 | not-found writes nothing; otherwise only the row's owner changes, to the user |
| TankServices.TankService.RemoveFromUser | src/application/services/tank.service.ts:107-116 | not-found writes nothing; otherwise the table is unchanged, so the stored owner survives, and the DTO shows the stored owner |
| FishSpeciesRepositories.MissingAliasesReadAsEmpty | src/infrastructure/repositories/fish-species.repository.ts:172 | a null aliases column reads back as [], and a stored list reads back as itself |
| FishSpeciesRepositories.CreatedAtIsReadTime | src/infrastructure/repositories/fish-species.repository.ts:183-184 | the stored timestamps are never read back: the same row read at two times differs only in its timestamps, which are the read time |
| FishSpeciesRepositories.SavedRow | src/infrastructure/repositories/fish-species.repository.ts:67-99 | the row `save` writes; `SaveRoundTrip` proves reading it back gives the entity's fields |
| FishSpeciesRepositories.SaveRoundTrip | src/infrastructure/repositories/fish-species.repository.ts:67-99 | reading back a saved row gives the entity's own fields (an empty alias list included) |
| FishSpeciesRepositories.EmptyAliasesNotWritten | src/infrastructure/repositories/fish-species.repository.ts:82-88 | the aliases column stays null exactly when the alias list is empty |
| FishSpeciesRepositories.Patched | src/infrastructure/repositories/fish-species.repository.ts:101-150 | the row `update` leaves: each supplied column written, the others kept; its laws are `PatchedLaws` |
| FishSpeciesRepositories.PatchedLaws | src/infrastructure/repositories/fish-species.repository.ts:101-150 | an empty patch writes nothing, a patch applied twice writes what it wrote once, a present optional column is never nulled, and an empty alias list is written |
| FishSpeciesRepositories.PatchKeepsCompatibility | src/infrastructure/repositories/fish-species.repository.ts:101-150 | a patch leaving the four range columns out does not change compatibility |
| FishSpeciesRepositories.EndpointsDecideOverlap | src/infrastructure/repositories/fish-species.repository.ts:55-62 | for well-formed intervals, the two end-point comparisons hold exactly when the intervals share a point |
| FishSpeciesRepositories.Compatible | src/infrastructure/repositories/fish-species.repository.ts:55-62 | the `where` clause of `findCompatibleSpecies`; `CompatibleIffOverlap` proves it is interval overlap for well-formed ranges |
| FishSpeciesRepositories.CompatibleIffOverlap | src/infrastructure/repositories/fish-species.repository.ts:55-62 | for well-formed ranges, a row is compatible exactly when its temperature and pH intervals each meet the query's |
| FishSpeciesRepositories.HardnessIgnored | src/infrastructure/repositories/fish-species.repository.ts:55-62 | hardness plays no part in compatibility |
| FishSpeciesRepositories.InvertedRangeSelected | src/infrastructure/repositories/fish-species.repository.ts:55-62 | a row whose temperature range is stored inverted (30 to 20) is compatible with 10 to 40 although it contains no temperature |
| FishSpeciesRepositories.Selected | src/infrastructure/repositories/fish-species.repository.ts:27-62 | exactly the ids of the rows the filter keeps |
| FishSpeciesRepositories.CareLevelFilter | src/infrastructure/repositories/fish-species.repository.ts:34-39 | filtering by a care level's name keeps exactly the rows with that care level; any other string keeps none |
| FishSpeciesRepositories.TemperamentFilter | src/infrastructure/repositories/fish-species.repository.ts:41-46 | filtering by a temperament's name keeps exactly the rows with that temperament; any other string keeps none |
| FishSpeciesRepositories.NameSelectsOne | src/infrastructure/repositories/fish-species.repository.ts:27-32 | with unique English names, a name selects at most one row |
| FishSpeciesRepositories.FishSpeciesRepository.constructor | src/infrastructure/repositories/fish-species.repository.ts:11-13 | an empty table whose next id is 1 |
| FishSpeciesRepositories.FishSpeciesRepository.ToDomain | src/infrastructure/repositories/fish-species.repository.ts:156-186 | a fresh entity whose observable state is the row read at the given time |
| FishSpeciesRepositories.FishSpeciesRepository.FindById | src/infrastructure/repositories/fish-species.repository.ts:15-20 | nothing exactly when the id has no row; otherwise a fresh entity for that row |
| FishSpeciesRepositories.FishSpeciesRepository.SelectedIds | src/infrastructure/repositories/fish-species.repository.ts:27-62 | exactly the ids the filter keeps, in increasing order |
| FishSpeciesRepositories.FishSpeciesRepository.ToDomainAll | src/infrastructure/repositories/fish-species.repository.ts:156-186 | one fresh entity per id, in order, each reading its row |
| FishSpeciesRepositories.FishSpeciesRepository.FindWhere | src/infrastructure/repositories/fish-species.repository.ts:34-65 | one fresh entity for each row the filter keeps, and for no other row, each once |
| FishSpeciesRepositories.FishSpeciesRepository.FindByNameEn | src/infrastructure/repositories/fish-species.repository.ts:27-32 | nothing exactly when no row has that English name; otherwise an entity for the row that does |
| FishSpeciesRepositories.FishSpeciesRepository.FindByCareLevel | src/infrastructure/repositories/fish-species.repository.ts:34-39 | entities for exactly the rows whose stored care level is that string |
| FishSpeciesRepositories.FishSpeciesRepository.FindByTemperament | src/infrastructure/repositories/fish-species.repository.ts:41-46 | entities for exactly the rows whose stored temperament is that string |
| FishSpeciesRepositories.FishSpeciesRepository.FindCompatibleSpecies | src/infrastructure/repositories/fish-species.repository.ts:48-65 | entities for exactly the rows whose temperature and pH ranges pass the end-point comparisons |
| FishSpeciesRepositories.FishSpeciesRepository.Save | src/infrastructure/repositories/fish-species.repository.ts:67-99 | a taken English name is an error that writes nothing; otherwise a new row under the next id holds the entity's fields, and names stay unique |
| FishSpeciesRepositories.FishSpeciesRepository.Update | src/infrastructure/repositories/fish-species.repository.ts:101-150 | a missing row, or an English name another row has, is an error that writes nothing; otherwise only the patch's columns are written and the row is read back |
| FishSpeciesRepositories.FishSpeciesRepository.Delete | src/infrastructure/repositories/fish-species.repository.ts:152-154 | that row and no other is removed; a missing row is an error |
| FishServices.Selected | src/infrastructure/repositories/fish.repository.ts:14-22 | exactly the ids of the rows kept: all rows, or those with exactly that species |
| FishServices.SpeciesFilterNarrows | src/infrastructure/repositories/fish.repository.ts:14-22 | no filter selects every row, and a species filter selects a subset |
| FishServices.FishStore.constructor | src/infrastructure/repositories/fish.repository.ts:6-7 | an empty fish table |
| FishServices.FishStore.ToDomain | src/infrastructure/repositories/fish.repository.ts:51-59 | a fresh entity holding the row's name, species and timestamps |
| FishServices.FishStore.FindById | src/infrastructure/repositories/fish.repository.ts:9-12 | nothing exactly when the id has no row; otherwise a fresh entity for that row |
| FishServices.FishStore.SelectedIds | src/infrastructure/repositories/fish.repository.ts:14-22 | exactly the kept ids, each once |
| FishServices.FishStore.ToDomainAll | src/infrastructure/repositories/fish.repository.ts:16 | one fresh entity per id, in order, each reading its row |
| FishServices.FishStore.FindWhere | src/infrastructure/repositories/fish.repository.ts:14-22 | one fresh entity for each kept row, and for no other row, each once |
| FishServices.FishStore.Save | src/infrastructure/repositories/fish.repository.ts:25-34 | inserts under the entity's own id; a taken id is an error that writes nothing |
| FishServices.FishStore.Update | src/infrastructure/repositories/fish.repository.ts:36-45 | a missing row is an error; otherwise name and species are written and the row read back |
| FishServices.FishStore.Delete | src/infrastructure/repositories/fish.repository.ts:47-49 | that row and no other is removed; a missing row is an error |
| FishServices.RowDto | src/application/dtos/fish.dto.ts:3-6 | the DTO of a row carries its id, name and species |
| FishServices.RowDtoIgnoresTimestamps | src/application/dtos/fish.dto.ts:3-6 | rows differing only in their timestamps give the same DTO |
| FishServices.FromEntities | src/application/services/fish.service.ts:17-20 | one DTO per fish, same length and order |
| FishServices.UpdatedRow | src/application/services/fish.service.ts:41-42 | name and species are each applied only when a non-empty string; the timestamps are kept |
| FishServices.UpdateLaws | src/application/services/fish.service.ts:35-46 | absent or empty properties change nothing, and an update applied twice stores what it stored once |
| FishServices.NotFound | src/application/services/fish.service.ts:25 | the not-found error names the Fish entity and the id |
| FishServices.FishService.constructor | src/application/services/fish.service.ts:9 | the service holds the given store |
| FishServices.FishService.Create | src/application/services/fish.service.ts:11-15 | saves a fish with id 0 and the given name and species; when id 0 is already taken, nothing is written and the insert fails |
| FishServices.FishService.FindById | src/application/services/fish.service.ts:22-28 | EntityNotFound("Fish", id) for a missing row; otherwise the row's DTO |
| FishServices.FishService.List | src/application/services/fish.service.ts:17-33 | the DTOs of exactly the kept rows, each once |
| FishServices.FishService.FindAll | src/application/services/fish.service.ts:17-20 | the DTOs of every row, each once |
| FishServices.FishService.FindBySpecies | src/application/services/fish.service.ts:30-33 | the DTOs of exactly the rows with that species, each once |
| FishServices.FishService.Update | src/application/services/fish.service.ts:35-46 | not-found writes nothing; otherwise the row becomes `UpdatedRow` and its DTO is returned |
| FishServices.FishService.Delete | src/application/services/fish.service.ts:48-54 | not-found removes nothing; otherwise exactly that row is removed |

## Left out

- Prisma and PostgreSQL access (connection pool, adapter, lifecycle) is I/O. Each table is a `map<int, Row>` held by a repository class, and a thrown Prisma error is an `Err`.
- The page arithmetic (last page, previous and next) comes from an external pagination extension and is not part of this model. `PaginationMeta` is carried as data.
- Supabase authentication and the auth use-cases are calls to an identity provider. The token validator is a function parameter of `JwtGuard.Authenticate` and `JwtGuard.CanActivate`; `None` stands for a validator that throws.
- NestJS wiring (controllers, modules, dependency injection, exception filters) is framework glue and is not modelled.
- `toLowerCase`, `trim` and the `\s` class are modelled on ASCII letters and JavaScript's ASCII and common Unicode space characters. Full Unicode case mapping is not modelled.
- JavaScript numbers are `real`: NaN, infinities and rounding are not modelled. They never arise from comparisons of finite values.
- An explicit `null` in an update DTO is treated like an absent property.
- TankServices.TankService.Update: because an explicit `null` is treated as absent, two outcomes of the source are not modelled. A null `type`, `style`, `description`, `status`, `setup_at`, `water_volume` or `avatar` passes `@IsOptional()` but is still `!== undefined` (src/application/services/tank.service.ts:76-82), so the source throws the TypeError while the model writes the update and returns `Ok`. A null `width`, `height` or `length` alongside the other two makes the source call `updateDimensions` with that null (:73-74), while the model applies no dimensions.
- Validation.Failures: the order of one property's violations is not modelled. The list follows the order in which the decorators are written, while TypeScript applies a property's decorators from the bottom up and class-validator may report them in that order. No contract here depends on that order; only which violations occur is stated. Properties are checked in declared order.
- Whether the database refreshes `updated_at` on an update is decided by the schema, which is not part of this model. The tables keep the stored timestamps on update.
- TankService.create is not modelled. It passes 13 arguments to the 8-parameter Tank constructor (src/application/services/tank.service.ts:13-27, src/domain/entities/tank.entity.ts:11-20), so `dto.type` binds to `user_id`, `dto.style` to `created_at`, `dto.description` to `updated_at`, and `dto.status`, `setup_at`, `water_volume`, `avatar` and the `userId` argument are dropped. A create without a type is therefore saved with no owner, and `save` passes any given type to `BigInt` (src/infrastructure/repositories/tank.repository.ts:32), which throws for a non-numeric string. Modelling it would need JavaScript's `BigInt` string parsing, which is not part of this model.
- FishService.assignToTank and FishService.removeFromTank are not modelled: they call methods that the Fish entity does not have.
- The `findAll` of the tank and fish-species repositories is not modelled as a separate operation. The fish store's `FindWhere(None)` covers the fish `findAll`.
- The order of the rows a find returns is a model choice: the queries have no `orderBy`. The tank and species finds return increasing ids; the fish finds promise no order.
- `src/application/dtos/base.dto.ts` is not part of this model. `FishDto` declares only `name` and `species` (src/application/dtos/fish.dto.ts:1-6), while `FishService` calls `FishDto.fromEntity` and `FishDto.fromEntities` (src/application/services/fish.service.ts:14-45), which are assumed to be inherited from `BaseDto` and to copy the id. The model assumes the service's DTO carries only id, name and species; the use cases in src/application/use-cases/fish/create-fish.use-case.ts:23-29 and src/application/use-cases/fish/get-all-fish.use-case.ts:19-20 also set `createdAt` and `updatedAt`, which `FishServices.RowDto` leaves out.
- FishServices.FishStore: the fish table is assumed to have camelCase `createdAt`/`updatedAt` columns, as `fish.repository.ts` reads them (src/infrastructure/repositories/fish.repository.ts:56-57), whereas the tank and user repositories read `created_at`/`updated_at`. The schema that would settle the column names is not part of this model.
- The species timestamps: the model assumes the species table has no `create_at`/`update_at` columns, so the misspelled reads in `toDomain` give absent values and both timestamps become the read time (`FishSpeciesRepositories.FishSpeciesRepository.ToDomain`). If the schema had columns of those names the stored times would be read back instead.
- AddAlias (`FishSpeciesEntity.FishSpecies.AddAlias`): the source appends with `push` to the very array the constructor stored (src/domain/entities/fish-species.entity.ts:79, 227), which is the caller's array when one was passed, so the caller sees the new alias too. The model's `aliases` is a `seq` value, so this sharing is not captured; only the entity's own list is stated.
- RemoveAlias (`FishSpeciesEntity.FishSpecies.RemoveAlias`): the source removes with `splice` on that same shared array (src/domain/entities/fish-species.entity.ts:79, 235), so the removal is visible through the caller's array as well. The model's `seq` value does not capture this sharing.
- FishSpecies.constructor (`FishSpeciesEntity.FishSpecies.constructor`): `aliases || []` keeps a reference to the caller's array (src/domain/entities/fish-species.entity.ts:79) rather than a copy, so the caller's later changes to that array change the entity's aliases, and `AddAlias`/`RemoveAlias` change the caller's array. The model copies the list as a `seq` and captures none of this aliasing; the `aliases` getter's copy (line 124) is captured.
- Pagination.NewPaginationRequest: `page` and `limit` are JavaScript numbers, narrowed to `int` here; a fractional or non-finite page or limit is not modelled.
- The user repository and `auth_id` mapping are not modelled; of `fish.repository.ts` only the table operations the fish service reaches are modelled.
- The getters of the entities are plain field reads in Dafny, so they have no members of their own.
- The response envelope's fields are `readonly`; a Dafny datatype value is immutable, so this holds by construction.
- English names are unique because `findByNameEn` looks a row up by `name_en` with `findUnique` (src/infrastructure/repositories/fish-species.repository.ts:28-29), which needs a unique constraint. The model states this as the `NamesUnique` invariant and makes a clashing `save` or `update` fail; the database schema itself is not part of this model.
