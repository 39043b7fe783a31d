/**
 * The program catalogue of asyncmiele/programs/catalog.py: the `Option`/`Program`
 * records and their field validators, the catalogue lookups, the resource file name and
 * the DOP2 program-selection payload.
 */
module ProgramCatalog {
  import opened Wrappers
  import opened BinaryPrimitives
  import opened Text
  import opened LeafParser
  import Crypto

  /** `Option`: an adjustable program option. */
  datatype ProgramOption = ProgramOption(id: int, name: string, default: Option<int>, allowedValues: Option<seq<int>>)

  /** `Program`: a selectable program with its options in catalogue order. */
  datatype Program = Program(id: int, name: string, options: seq<ProgramOption>)

  /** `ProgramCatalog`: the programs of one device type. */
  datatype Catalog = Catalog(deviceType: string, programs: seq<Program>)

  /** The ValueErrors of `build_dop2_selection`. */
  datatype SelectionError =
    | OutOfRange(value: int)
    | MissingValue(optionId: int)
    | UnknownOptions(optionIds: set<int>)

  /** A pydantic validation failure, naming the offending field. */
  datatype ValidationError = FieldError(field: string)

  /** The KeyError of `option_by_id`. */
  datatype KeyError = NoSuchOption(optionId: int)

  // ---------------------------------------------------------------------------
  // Records and validators
  // ---------------------------------------------------------------------------

  /** `Option(...)`: `id` in [0, 0xFFFF], `default` at least 0, every allowed value in [0, 0xFFFF]. */
  function ValidateOption(id: int, name: string, default: Option<int>, allowedValues: Option<seq<int>>)
    : (r: Result<ProgramOption, ValidationError>)
    ensures r.Ok? <==>
      && IsU16(id)
      && (default.Some? ==> default.value >= 0)
      && (allowedValues.Some? ==> forall i | 0 <= i < |allowedValues.value| :: IsU16(allowedValues.value[i]))
    ensures r.Ok? ==> r.value == ProgramOption(id, name, default, allowedValues)
  {
    if !IsU16(id) then Err(FieldError("id"))
    else if default.Some? && default.value < 0 then Err(FieldError("default"))
    else if allowedValues.Some? && exists i | 0 <= i < |allowedValues.value| :: !IsU16(allowedValues.value[i])
    then Err(FieldError("allowed_values"))
    else Ok(ProgramOption(id, name, default, allowedValues))
  }

  /** `Program(...)`: `id` in [0, 0xFFFF]. */
  function ValidateProgram(id: int, name: string, options: seq<ProgramOption>): (r: Result<Program, ValidationError>)
    ensures r.Ok? <==> IsU16(id)
    ensures r.Ok? ==> r.value == Program(id, name, options)
  {
    if !IsU16(id) then Err(FieldError("id")) else Ok(Program(id, name, options))
  }

  // ---------------------------------------------------------------------------
  // Lookups
  // ---------------------------------------------------------------------------

  /** The index of the first option with the given id at or after `from`. */
  function FirstOptionFrom(options: seq<ProgramOption>, optionId: int, from: nat): (r: Option<nat>)
    requires from <= |options|
    ensures r.Some? ==>
      && from <= r.value < |options| && options[r.value].id == optionId
      && forall j | from <= j < r.value :: options[j].id != optionId
    ensures r.None? ==> forall j | from <= j < |options| :: options[j].id != optionId
    decreases |options| - from
  {
    if from == |options| then None
    else if options[from].id == optionId then Some(from)
    else FirstOptionFrom(options, optionId, from + 1)
  }

  /** `Program.option_by_id`: the first option with that id, or KeyError. */
  function OptionById(program: Program, optionId: int): (r: Result<ProgramOption, KeyError>)
    ensures r.Ok? <==> exists i | 0 <= i < |program.options| :: program.options[i].id == optionId
    ensures r.Ok? ==> exists i | 0 <= i < |program.options| ::
      && program.options[i] == r.value && r.value.id == optionId
      && forall j | 0 <= j < i :: program.options[j].id != optionId
    ensures r.Err? ==> r.error == NoSuchOption(optionId)
  {
    match FirstOptionFrom(program.options, optionId, 0)
    case Some(i) => Ok(program.options[i])
    case None => Err(NoSuchOption(optionId))
  }

  /** A dict comprehension keyed by `key`: a later program replaces an earlier one with the same key. */
  function IndexBy<K>(programs: seq<Program>, key: Program -> K): map<K, Program> {
    if programs == [] then map[]
    else
      var last := programs[|programs| - 1];
      IndexBy(programs[..|programs| - 1], key)[key(last) := last]
  }

  /** The keys are the programs' keys, and each maps to the last program carrying it. */
  lemma {:induction false} IndexByLastWins<K>(programs: seq<Program>, key: Program -> K)
    ensures forall k :: k in IndexBy(programs, key) <==> exists i | 0 <= i < |programs| :: key(programs[i]) == k
    ensures forall k | k in IndexBy(programs, key) :: exists i | 0 <= i < |programs| ::
      && programs[i] == IndexBy(programs, key)[k] && key(programs[i]) == k
      && forall j | i < j < |programs| :: key(programs[j]) != k
  {
    if programs != [] {
      var init := programs[..|programs| - 1];
      var last := programs[|programs| - 1];
      IndexByLastWins(init, key);
      var m := IndexBy(programs, key);
      assert m == IndexBy(init, key)[key(last) := last];
      forall k ensures k in m <==> exists i | 0 <= i < |programs| :: key(programs[i]) == k {
        if k in m && k != key(last) {
          assert k in IndexBy(init, key);
          var i :| 0 <= i < |init| && key(init[i]) == k;
          assert programs[i] == init[i];
        }
        if k == key(last) {
          assert key(programs[|programs| - 1]) == k;
        }
        if exists i | 0 <= i < |programs| :: key(programs[i]) == k {
          var i :| 0 <= i < |programs| && key(programs[i]) == k;
          if i < |init| {
            assert init[i] == programs[i];
          }
        }
      }
      forall k | k in m
        ensures exists i | 0 <= i < |programs| ::
          && programs[i] == m[k] && key(programs[i]) == k
          && forall j | i < j < |programs| :: key(programs[j]) != k
      {
        if k == key(last) {
          assert programs[|programs| - 1] == m[k];
        } else {
          assert k in IndexBy(init, key) && m[k] == IndexBy(init, key)[k];
          var i :| 0 <= i < |init| && init[i] == m[k] && key(init[i]) == k
            && forall j | i < j < |init| :: key(init[j]) != k;
          assert programs[i] == init[i];
          forall j | i < j < |programs| ensures key(programs[j]) != k {
            if j < |init| {
              assert programs[j] == init[j];
            }
          }
        }
      }
    }
  }

  /** `programs_by_name`: name to program, the last program of a name winning. */
  function ProgramsByName(catalog: Catalog): (r: map<string, Program>)
    ensures forall n :: n in r <==> exists i | 0 <= i < |catalog.programs| :: catalog.programs[i].name == n
    ensures forall n | n in r :: r[n].name == n && exists i | 0 <= i < |catalog.programs| ::
      catalog.programs[i] == r[n] && forall j | i < j < |catalog.programs| :: catalog.programs[j].name != n
  {
    IndexByLastWins(catalog.programs, (p: Program) => p.name);
    IndexBy(catalog.programs, (p: Program) => p.name)
  }

  /** `programs_by_id`: program id to program, the last program of an id winning. */
  function ProgramsById(catalog: Catalog): (r: map<int, Program>)
    ensures forall n :: n in r <==> exists i | 0 <= i < |catalog.programs| :: catalog.programs[i].id == n
    ensures forall n | n in r :: r[n].id == n && exists i | 0 <= i < |catalog.programs| ::
      catalog.programs[i] == r[n] && forall j | i < j < |catalog.programs| :: catalog.programs[j].id != n
  {
    IndexByLastWins(catalog.programs, (p: Program) => p.id);
    IndexBy(catalog.programs, (p: Program) => p.id)
  }

  /** One character of the resource file name: lower-cased, a space becoming `_`. */
  function FileNameChar(c: char): char {
    if LowerChar(c) == ' ' then '_' else LowerChar(c)
  }

  function FileNameChars(s: string): (r: string)
    ensures |r| == |s|
    ensures forall i | 0 <= i < |s| :: r[i] == FileNameChar(s[i])
  {
    if s == "" then "" else [FileNameChar(s[0])] + FileNameChars(s[1..])
  }

  /** `_resource_path`, without the bundled resource directory: the catalogue's file name. */
  function ResourceFileName(deviceType: string): (r: string)
    ensures |r| == |deviceType| + 5 && r[|deviceType|..] == ".json"
    ensures forall i | 0 <= i < |deviceType| :: r[i] != ' ' && !('A' <= r[i] <= 'Z')
    ensures forall i | 0 <= i < |deviceType| ::
      r[i] == (if deviceType[i] == ' ' then '_' else LowerChar(deviceType[i]))
  {
    FileNameChars(deviceType) + ".json"
  }

  // ---------------------------------------------------------------------------
  // Selection payload
  // ---------------------------------------------------------------------------

  /** `_u16`: the two big-endian bytes of a value in [0, 0xFFFF], else ValueError. */
  function EncodeU16(v: int): (r: Result<Bytes, SelectionError>)
    ensures r.Ok? <==> IsU16(v)
    ensures r.Ok? ==> r.value == Be16(v) && U16(r.value[0], r.value[1]) == v
    ensures r.Err? ==> r.error == OutOfRange(v)
  {
    if !IsU16(v) then Err(OutOfRange(v))
    else
      U16OfBe16(v);
      Ok(Be16(v))
  }

  /** The ids of a list of options. */
  function IdsOf(options: seq<ProgramOption>): set<int> {
    set i | 0 <= i < |options| :: options[i].id
  }

  /**
   * The value written for option `i`: the caller's choice if the id is chosen and no
   * earlier option has already popped it, otherwise the option's default.
   */
  function ValueOf(options: seq<ProgramOption>, i: int, chosen: map<int, int>): Option<int>
    requires 0 <= i < |options|
  {
    var id := options[i].id;
    if id in chosen && id !in IdsOf(options[..i]) then Some(chosen[id]) else options[i].default
  }

  /** One pass of the option loop: pop the chosen value (or take the default) and encode. */
  function OptionEntry(option: ProgramOption, remaining: map<int, int>): Result<(Bytes, map<int, int>), SelectionError> {
    var value := if option.id in remaining then Some(remaining[option.id]) else option.default;
    if value.None? then Err(MissingValue(option.id))
    else if !IsU16(option.id) then Err(OutOfRange(option.id))
    else if !IsU16(value.value) then Err(OutOfRange(value.value))
    else Ok((Be16(option.id) + Be16(value.value), remaining - {option.id}))
  }

  /** The option loop over a list: the bytes written and the choices not yet popped. */
  function Entries(options: seq<ProgramOption>, chosen: map<int, int>): Result<(Bytes, map<int, int>), SelectionError> {
    if options == [] then Ok(([], chosen))
    else
      match Entries(options[..|options| - 1], chosen)
      case Err(e) => Err(e)
      case Ok(prefix) =>
        match OptionEntry(options[|options| - 1], prefix.1)
        case Err(e) => Err(e)
        case Ok(entry) => Ok((prefix.0 + entry.0, entry.1))
  }

  /** `chosen_options or {}`. */
  function ChosenMap(chosen: Option<map<int, int>>): map<int, int> {
    if chosen.None? then map[] else chosen.value
  }

  /** The unpadded selection: program id, the option entries, then no choice may be left. */
  function SelectionBody(program: Program, chosen: Option<map<int, int>>): Result<Bytes, SelectionError> {
    match EncodeU16(program.id)
    case Err(e) => Err(e)
    case Ok(head) =>
      match Entries(program.options, ChosenMap(chosen))
      case Err(e) => Err(e)
      case Ok(entries) =>
        if entries.1 != map[] then Err(UnknownOptions(entries.1.Keys)) else Ok(head + entries.0)
  }

  /** `build_dop2_selection`: the body padded with spaces to a 16-byte boundary. */
  function SelectionPayload(program: Program, chosen: Option<map<int, int>>): (r: Result<Bytes, SelectionError>)
    ensures r.Ok? <==> SelectionBody(program, chosen).Ok?
    ensures r.Ok? ==>
      var body := SelectionBody(program, chosen).value;
      && |r.value| % 16 == 0 && |body| <= |r.value| < |body| + 16
      && r.value[..|body|] == body
      && forall i | |body| <= i < |r.value| :: r.value[i] == Crypto.Space
  {
    match SelectionBody(program, chosen)
    case Err(e) => Err(e)
    case Ok(body) => Ok(Crypto.PadPayload(body, Crypto.DefaultBlockSize))
  }

  /** The serialiser itself: the program id, the option loop, the leftover check, the padding. */
  method BuildDop2Selection(program: Program, chosenOptions: Option<map<int, int>>)
    returns (r: Result<Bytes, SelectionError>)
    ensures r == SelectionPayload(program, chosenOptions)
  {
    var chosen := ChosenMap(chosenOptions);
    var head := EncodeU16(program.id);
    if head.Err? {
      return Err(head.error);
    }
    var written := AppendOptions(head.value, program.options, chosen);
    if written.Err? {
      return Err(written.error);
    }
    var (payload, remaining) := written.value;
    if remaining != map[] {
      return Err(UnknownOptions(remaining.Keys));
    }
    return Ok(Crypto.PadPayload(payload, Crypto.DefaultBlockSize));
  }

  /** The option loop of `build_dop2_selection`, appending to `payload0` and popping from a copy. */
  method AppendOptions(payload0: Bytes, options: seq<ProgramOption>, chosen0: map<int, int>)
    returns (r: Result<(Bytes, map<int, int>), SelectionError>)
    ensures Entries(options, chosen0).Err? ==> r == Err(Entries(options, chosen0).error)
    ensures Entries(options, chosen0).Ok? ==>
      r == Ok((payload0 + Entries(options, chosen0).value.0, Entries(options, chosen0).value.1))
  {
    var payload := payload0;
    var chosen := chosen0;
    ghost var body: Bytes := [];
    var i := 0;
    assert options[..0] == [];
    while i < |options|
      invariant 0 <= i <= |options|
      invariant payload == payload0 + body
      invariant Entries(options[..i], chosen0) == Ok((body, chosen))
    {
      EntriesSnoc(options, i, chosen0);
      var step := AppendOption(payload, options[i], chosen);
      if step.Err? {
        EntriesErrSticky(options, i + 1, chosen0);
        return Err(step.error);
      }
      ghost var entry := OptionEntry(options[i], chosen).value.0;
      body := body + entry;
      payload, chosen := step.value.0, step.value.1;
      i := i + 1;
    }
    assert options[..i] == options;
    return Ok((payload, chosen));
  }

  /** One pass of the option loop: pop the option's value, check it, append id and value. */
  method AppendOption(payload: Bytes, option: ProgramOption, chosen: map<int, int>)
    returns (r: Result<(Bytes, map<int, int>), SelectionError>)
    ensures OptionEntry(option, chosen).Err? ==> r == Err(OptionEntry(option, chosen).error)
    ensures OptionEntry(option, chosen).Ok? ==>
      r == Ok((payload + OptionEntry(option, chosen).value.0, OptionEntry(option, chosen).value.1))
  {
    var value := if option.id in chosen then Some(chosen[option.id]) else option.default;
    var remaining := chosen - {option.id};
    if value.None? {
      return Err(MissingValue(option.id));
    }
    var idBytes := EncodeU16(option.id);
    if idBytes.Err? {
      return Err(idBytes.error);
    }
    var valueBytes := EncodeU16(value.value);
    if valueBytes.Err? {
      return Err(valueBytes.error);
    }
    var out := payload + idBytes.value;
    out := out + valueBytes.value;
    assert out == payload + (idBytes.value + valueBytes.value);
    return Ok((out, remaining));
  }

  /** The option loop over one more option. */
  lemma EntriesSnoc(options: seq<ProgramOption>, i: nat, chosen: map<int, int>)
    requires i < |options|
    ensures Entries(options[..i + 1], chosen) ==
      match Entries(options[..i], chosen)
      case Err(e) => Err(e)
      case Ok(prefix) =>
        match OptionEntry(options[i], prefix.1)
        case Err(e) => Err(e)
        case Ok(entry) => Ok((prefix.0 + entry.0, entry.1))
  {
    assert options[..i + 1][..i] == options[..i];
  }

  /** Once the option loop has raised, the rest of the loop does not run. */
  lemma {:induction false} EntriesErrSticky(options: seq<ProgramOption>, k: nat, chosen: map<int, int>)
    requires k <= |options| && Entries(options[..k], chosen).Err?
    ensures Entries(options, chosen) == Entries(options[..k], chosen)
    decreases |options| - k
  {
    if k < |options| {
      assert options[..k + 1][..k] == options[..k];
      EntriesErrSticky(options, k + 1, chosen);
    } else {
      assert options[..k] == options;
    }
  }

  /** The ids of a list are those of all but its last option, plus the last one's. */
  lemma IdsOfSnoc(options: seq<ProgramOption>)
    requires options != []
    ensures IdsOf(options) == IdsOf(options[..|options| - 1]) + {options[|options| - 1].id}
  {
    var n := |options| - 1;
    var init := options[..n];
    forall x | x in IdsOf(options) ensures x in IdsOf(init) + {options[n].id} {
      var i :| 0 <= i < |options| && options[i].id == x;
      if i < n {
        assert init[i] == options[i];
      }
    }
    forall x | x in IdsOf(init) ensures x in IdsOf(options) {
      var i :| 0 <= i < n && init[i].id == x;
      assert options[i] == init[i];
    }
  }

  /** The value of an option depends only on the options before it. */
  lemma ValueOfPrefix(options: seq<ProgramOption>, n: nat, chosen: map<int, int>)
    requires n <= |options|
    ensures forall i | 0 <= i < n :: ValueOf(options, i, chosen) == ValueOf(options[..n], i, chosen)
  {
    forall i | 0 <= i < n ensures ValueOf(options, i, chosen) == ValueOf(options[..n], i, chosen) {
      assert options[..i] == options[..n][..i];
    }
  }

  /**
   * The option loop succeeds exactly when every option has an in-range id and an
   * in-range value, and it then leaves exactly the chosen ids that no option has.
   */
  lemma {:induction false} EntriesOk(options: seq<ProgramOption>, chosen: map<int, int>)
    ensures Entries(options, chosen).Ok? <==> forall i | 0 <= i < |options| ::
      IsU16(options[i].id) && ValueOf(options, i, chosen).Some? && IsU16(ValueOf(options, i, chosen).value)
    ensures Entries(options, chosen).Ok? ==> Entries(options, chosen).value.1 == chosen - IdsOf(options)
  {
    if options != [] {
      var n := |options| - 1;
      var init := options[..n];
      EntriesOk(init, chosen);
      ValueOfPrefix(options, n, chosen);
      IdsOfSnoc(options);
      if Entries(init, chosen).Ok? {
        var rem := Entries(init, chosen).value.1;
        assert ValueOf(options, n, chosen) == (if options[n].id in rem then Some(rem[options[n].id]) else options[n].default);
      }
    }
  }

  /** A successful option loop writes four bytes per option, in list order. */
  lemma {:induction false} EntriesBytes(options: seq<ProgramOption>, chosen: map<int, int>)
    requires Entries(options, chosen).Ok?
    ensures |Entries(options, chosen).value.0| == 4 * |options|
    ensures forall i | 0 <= i < |options| ::
      && IsU16(options[i].id) && ValueOf(options, i, chosen).Some? && IsU16(ValueOf(options, i, chosen).value)
      && Entries(options, chosen).value.0[4 * i .. 4 * i + 4] == Be16(options[i].id) + Be16(ValueOf(options, i, chosen).value)
  {
    EntriesOk(options, chosen);
    if options != [] {
      var n := |options| - 1;
      var init := options[..n];
      EntriesBytes(init, chosen);
      EntriesOk(init, chosen);
      ValueOfPrefix(options, n, chosen);
      var rem := Entries(init, chosen).value.1;
      assert ValueOf(options, n, chosen) == (if options[n].id in rem then Some(rem[options[n].id]) else options[n].default);
      var b := Entries(init, chosen).value.0;
      var b2 := Entries(options, chosen).value.0;
      var v := ValueOf(options, n, chosen).value;
      assert b2 == b + (Be16(options[n].id) + Be16(v));
      forall i | 0 <= i < |options|
        ensures b2[4 * i .. 4 * i + 4] == Be16(options[i].id) + Be16(ValueOf(options, i, chosen).value)
      {
        if i < n {
          assert b2[4 * i .. 4 * i + 4] == b[4 * i .. 4 * i + 4];
        }
      }
    }
  }

  /**
   * `build_dop2_selection` succeeds exactly when the program id and every option id and
   * value fit in 16 bits, every option has a value, and every chosen id is an option of
   * the program. The body is then two bytes of program id and four bytes per option,
   * in the program's option order.
   */
  lemma SelectionLayout(program: Program, chosen: Option<map<int, int>>)
    ensures SelectionBody(program, chosen).Ok? <==>
      && IsU16(program.id)
      && (forall i | 0 <= i < |program.options| ::
            && IsU16(program.options[i].id)
            && ValueOf(program.options, i, ChosenMap(chosen)).Some?
            && IsU16(ValueOf(program.options, i, ChosenMap(chosen)).value))
      && ChosenMap(chosen).Keys <= IdsOf(program.options)
    ensures SelectionBody(program, chosen).Ok? ==>
      var body := SelectionBody(program, chosen).value;
      && |body| == 2 + 4 * |program.options|
      && body[..2] == Be16(program.id)
      && forall i | 0 <= i < |program.options| ::
           body[2 + 4 * i .. 2 + 4 * i + 4] ==
             Be16(program.options[i].id) + Be16(ValueOf(program.options, i, ChosenMap(chosen)).value)
  {
    var m := ChosenMap(chosen);
    EntriesOk(program.options, m);
    if Entries(program.options, m).Ok? {
      EntriesBytes(program.options, m);
    }
    if IsU16(program.id) && Entries(program.options, m).Ok? {
      var rem := Entries(program.options, m).value.1;
      assert rem == m - IdsOf(program.options);
      assert rem == map[] <==> m.Keys <= IdsOf(program.options) by {
        if rem == map[] {
          forall k | k in m.Keys ensures k in IdsOf(program.options) {
            assert k !in rem;
          }
        }
      }
      if SelectionBody(program, chosen).Ok? {
        var body := SelectionBody(program, chosen).value;
        var b := Entries(program.options, m).value.0;
        assert body == Be16(program.id) + b;
        forall i | 0 <= i < |program.options|
          ensures body[2 + 4 * i .. 2 + 4 * i + 4] == b[4 * i .. 4 * i + 4]
        {
        }
      }
    }
  }

  /** The example of the module documentation: Cottons with temperature 60 and spin 1600. */
  lemma SelectionExample()
    ensures
      var cottons := Program(1, "Cottons", [ProgramOption(10, "temperature", None, None),
                                            ProgramOption(11, "spin", None, None)]);
      var body := SelectionBody(cottons, Some(map[10 := 60, 11 := 1600]));
      body.Ok? && body.value == [0x00, 0x01, 0x00, 0x0a, 0x00, 0x3c, 0x00, 0x0b, 0x06, 0x40]
  {
    CottonsEntries();
    assert Be16(1) == [0x00, 0x01];
  }

  /** The option loop of the example: both options written, no choice left over. */
  lemma CottonsEntries()
    ensures Entries([ProgramOption(10, "temperature", None, None), ProgramOption(11, "spin", None, None)],
                    map[10 := 60, 11 := 1600])
            == Ok(([0x00, 0x0a, 0x00, 0x3c, 0x00, 0x0b, 0x06, 0x40], map[]))
  {
    var opts := [ProgramOption(10, "temperature", None, None), ProgramOption(11, "spin", None, None)];
    var chosen := map[10 := 60, 11 := 1600];
    CottonsOptionEntries();
    EntriesSnoc(opts, 0, chosen);
    EntriesSnoc(opts, 1, chosen);
    assert opts[..0] == [] && opts[..2] == opts;
    assert Entries(opts[..0], chosen) == Ok(([], chosen));
    assert opts[0] == ProgramOption(10, "temperature", None, None) && opts[1] == ProgramOption(11, "spin", None, None);
    assert [] + [0x00, 0x0a, 0x00, 0x3c] == [0x00, 0x0a, 0x00, 0x3c];
    assert Entries(opts[..1], chosen) == Ok(([0x00, 0x0a, 0x00, 0x3c], chosen - {10}));
    assert [0x00, 0x0a, 0x00, 0x3c] + [0x00, 0x0b, 0x06, 0x40] == [0x00, 0x0a, 0x00, 0x3c, 0x00, 0x0b, 0x06, 0x40];
    assert chosen - {10} - {11} == map[];
  }

  /** Each option of the example on its own. */
  lemma CottonsOptionEntries()
    ensures OptionEntry(ProgramOption(10, "temperature", None, None), map[10 := 60, 11 := 1600])
            == Ok(([0x00, 0x0a, 0x00, 0x3c], map[10 := 60, 11 := 1600] - {10}))
    ensures OptionEntry(ProgramOption(11, "spin", None, None), map[10 := 60, 11 := 1600] - {10})
            == Ok(([0x00, 0x0b, 0x06, 0x40], map[10 := 60, 11 := 1600] - {10} - {11}))
  {
    var chosen := map[10 := 60, 11 := 1600];
    assert Be16(10) == [0x00, 0x0a] && Be16(60) == [0x00, 0x3c];
    assert Be16(11) == [0x00, 0x0b] && Be16(1600) == [0x06, 0x40];
    assert Be16(10) + Be16(60) == [0x00, 0x0a, 0x00, 0x3c];
    assert Be16(11) + Be16(1600) == [0x00, 0x0b, 0x06, 0x40];
    assert 10 in chosen && chosen[10] == 60;
    assert (chosen - {10})[11] == 1600 && 11 in chosen - {10};
  }
}
