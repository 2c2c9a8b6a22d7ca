/** Log-level handling shared by server and client (the `LL` enum and the
    `Util.as_enum` / `Util.message` pair). */
module Util {

  /** The four levels of `LL`, an IntEnum numbered 1 to 4. */
  datatype Level = Crit | Warn | Info | Debug

  function Rank(l: Level): int
  {
    match l
    case Crit => 1
    case Warn => 2
    case Info => 3
    case Debug => 4
  }

  /** The configuration name of each level. */
  function NameOf(l: Level): string
  {
    match l
    case Crit => "crit"
    case Warn => "warn"
    case Info => "info"
    case Debug => "debug"
  }

  /** What a log level can be given as: a string, or any other object, which
      `as_enum` passes through untouched.  `Given(None)` is Python's `None`;
      `Given(Some(k))` is an `LL` member or a plain integer of value `k`. */
  datatype LevelArg = Named(name: string) | Given(value: Option<int>)

  datatype Option<T> = None | Some(value: T)

  /** `Util.as_enum`: a level name becomes its rank, an unknown name becomes `None`,
      anything that is not a string is returned as it is. */
  function AsEnum(arg: LevelArg): (r: Option<int>)
    ensures arg.Named? ==> (r.Some? <==> exists l: Level :: NameOf(l) == arg.name)
    ensures arg.Named? && r.Some? ==> 1 <= r.value <= 4 && NameOf(LevelOfRank(r.value)) == arg.name
    ensures arg.Given? ==> r == arg.value
  {
    match arg
    case Given(v) => v
    case Named(s) =>
      if s == "crit" then assert NameOf(Crit) == s; Some(1)
      else if s == "warn" then assert NameOf(Warn) == s; Some(2)
      else if s == "info" then assert NameOf(Info) == s; Some(3)
      else if s == "debug" then assert NameOf(Debug) == s; Some(4)
      else
        assert forall l: Level :: NameOf(l) != s;
        None
  }

  function LevelOfRank(k: int): Level
    requires 1 <= k <= 4
  {
    if k == 1 then Crit else if k == 2 then Warn else if k == 3 then Info else Debug
  }

  /** Every level's name maps back to that level's rank. */
  lemma AsEnumNames(l: Level)
    ensures AsEnum(Named(NameOf(l))) == Some(Rank(l))
  {
  }

  /** Outcome of `Util.message`: the line is printed, filtered out, or the level
      comparison raises (Python 3 refuses to order `None` against an integer). */
  datatype Emission = Emitted | Suppressed | Raises

  /** The filter in `Util.message`: print when the caller's level is at least the
      message's level. */
  function Filter(caller: LevelArg, level: string): (e: Emission)
    ensures e == Raises <==> AsEnum(caller).None? || AsEnum(Named(level)).None?
    ensures e == Emitted <==>
              && AsEnum(caller).Some? && AsEnum(Named(level)).Some?
              && AsEnum(Named(level)).value <= AsEnum(caller).value
  {
    match (AsEnum(caller), AsEnum(Named(level)))
    case (Some(c), Some(m)) => if c >= m then Emitted else Suppressed
    case _ => Raises
  }

  /** A component at level `c` prints a message of level `m` exactly when `m` is
      not more verbose than `c`; so raising a component's level never hides a
      message it printed before. */
  lemma FilterByRank(c: Level, m: Level)
    ensures Filter(Named(NameOf(c)), NameOf(m)) == (if Rank(m) <= Rank(c) then Emitted else Suppressed)
  {
    AsEnumNames(c);
    AsEnumNames(m);
  }

  /** A component whose level was configured with an unknown name cannot log at
      all: every message call raises. */
  lemma UnknownLevelRaises(name: string, m: Level)
    requires forall l: Level :: NameOf(l) != name
    ensures Filter(Named(name), NameOf(m)) == Raises
  {
  }
}
