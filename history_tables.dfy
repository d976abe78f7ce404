/**
 * The Postgres tables shared by the stream processor (writer) and the admin
 * service (reader): the append-only telemetry history and the cars table.
 */
module HistoryTables {
  import opened Records

  /** A row of citydrive.car_telemetry_history. */
  datatype HistoryRow = HistoryRow(
    carId: string, lat: real, lon: real, fuel: real, speed: Int32, engineOn: bool,
    locked: bool, activated: bool, rpm: Int32, handbrake: bool, odo: Int64, timestamp: Int64)

  predicate IsHexDigit(c: char)
  {
    '0' <= c <= '9' || 'a' <= c <= 'f' || 'A' <= c <= 'F'
  }

  function HexDigitValue(c: char): (d: nat)
    requires IsHexDigit(c)
    ensures d < 16
  {
    if '0' <= c <= '9' then c as int - '0' as int
    else if 'a' <= c <= 'f' then c as int - 'a' as int + 10
    else c as int - 'A' as int + 10
  }

  /**
   * The number the hex digits of `s` spell, most significant first, any
   * other character skipped. For uuid text it is the 128-bit value by which
   * PostgreSQL orders uuids, whatever the case, hyphens or braces.
   */
  function UuidValue(s: string): nat
  {
    if s == [] then 0
    else
      var v := UuidValue(s[..|s| - 1]);
      var c := s[|s| - 1];
      if IsHexDigit(c) then v * 16 + HexDigitValue(c) else v
  }

  /**
   * `groups` groups of four hex digits, each but the last optionally
   * followed by one hyphen.
   */
  predicate HexGroups(s: string, groups: nat)
    decreases groups
  {
    if groups == 0 then s == []
    else
      && |s| >= 4 && IsHexDigit(s[0]) && IsHexDigit(s[1]) && IsHexDigit(s[2]) && IsHexDigit(s[3])
      && (HexGroups(s[4..], groups - 1) || (groups > 1 && |s| > 4 && s[4] == '-' && HexGroups(s[5..], groups - 1)))
  }

  /**
   * PostgreSQL's input syntax for the uuid type: 32 hex digits in either
   * case, a hyphen allowed after any group of four, the whole optionally
   * enclosed in braces.
   */
  predicate IsUuid(s: string)
  {
    HexGroups(s, 8) || (|s| >= 2 && s[0] == '{' && s[|s| - 1] == '}' && HexGroups(s[1..|s| - 1], 8))
  }

  lemma {:induction false} HexGroupsLength(s: string, groups: nat)
    requires HexGroups(s, groups)
    ensures 4 * groups <= |s| && (groups > 0 ==> |s| <= 5 * groups - 1)
  {
    if groups > 0 {
      if HexGroups(s[4..], groups - 1) {
        HexGroupsLength(s[4..], groups - 1);
      } else {
        HexGroupsLength(s[5..], groups - 1);
      }
    }
  }

  /** A uuid is 32 to 41 characters long: the empty car id is not one. */
  lemma UuidLength(s: string)
    requires IsUuid(s)
    ensures 32 <= |s| <= 41
  {
    if HexGroups(s, 8) {
      HexGroupsLength(s, 8);
    } else {
      HexGroupsLength(s[1..|s| - 1], 8);
    }
  }

  /** A row of the cars table, keyed by car id. */
  datatype CarInfo = CarInfo(brand: string, model: string)

  class Database {
    /** History rows in insertion order. */
    var history: seq<HistoryRow>
    var cars: map<string, CarInfo>

    constructor(cars: map<string, CarInfo>)
      ensures history == [] && this.cars == cars
    {
      history := [];
      this.cars := cars;
    }
  }
}
