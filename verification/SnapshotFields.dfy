/** The fixed fields of a bridge snapshot, in the order the game prints them. */
module SnapshotFields {

  const FIELDS := 53

  const ACTIVATION_GENERATION := 3
  const CLIENT_HEARTBEAT := 18
  const GAME_HEARTBEAT := 20
  const SAVE_SLOT := 25
  const CURRENT_ACT := 32
  const NATIVE_MASK := 43
  const RECEIPT_COUNT := 52

  datatype Kind = Integer | Boolean | Text | Optional | Message | Enumeration(low: int, high: int)

  function ContractKey(i: nat): string {
    match i
    case 0 => "protocol_version"
    case 1 => "game_integration_version"
    case 2 => "bridge_runtime_version"
    case 3 => "bridge_activation_generation"
    case 4 => "items_module_active"
    case 5 => "locations_module_active"
    case 6 => "reward_module_active"
    case 7 => "state_schema_version"
    case 8 => "slot_data_version"
    case 9 => "item_table_version"
    case 10 => "location_table_version"
    case 11 => "mission_table_version"
    case 12 => "item_table_hash"
    case _ => "location_table_hash"
  }

  function SessionKey(i: nat): string {
    match i
    case 14 => "mission_table_hash"
    case 15 => "connection_ready"
    case 16 => "client_session_id"
    case 17 => "session_nonce"
    case 18 => "client_heartbeat"
    case 19 => "client_status"
    case 20 => "game_heartbeat"
    case 21 => "game_status"
    case 22 => "game_running"
    case 23 => "source_loaded"
    case 24 => "save_loaded"
    case 25 => "native_save_slot"
    case 26 => "native_save_identity"
    case _ => "consumed_save_identity"
  }

  function RuntimeKey(i: nat): string {
    match i
    case 28 => "native_save_eligibility"
    case 29 => "ap_state_loaded"
    case 30 => "ap_state_bound"
    case 31 => "current_level"
    case 32 => "current_act"
    case 33 => "current_task"
    case 34 => "current_task_node"
    case 35 => "at_title_menu"
    case 36 => "loading"
    case 37 => "in_cutscene"
    case 38 => "dying_or_dead"
    case 39 => "mission_restarting"
    case _ => "level_transition"
  }

  function CommandKey(i: nat): string {
    match i
    case 41 => "in_vehicle"
    case 42 => "safe_to_apply_permanent_item"
    case 43 => "permanent_item_native_target_mask"
    case 44 => "safe_to_apply_consumable"
    case 45 => "safe_to_mutate_mission_state"
    case 46 => "test_target"
    case 47 => "last_command_id"
    case 48 => "last_command_kind"
    case 49 => "last_command_result"
    case 50 => "last_error_code"
    case 51 => "last_error_message"
    case _ => "recent_command_count"
  }

  function Key(i: nat): string
    requires i < FIELDS
  {
    if i < 14 then ContractKey(i) else if i < 28 then SessionKey(i) else if i < 41 then RuntimeKey(i) else CommandKey(i)
  }

  function KindOf(i: nat): Kind
    requires i < FIELDS
  {
    if i == 19 then Enumeration(0, 4)
    else if i == 21 then Enumeration(1, 5)
    else if i == 28 then Enumeration(0, 2)
    else if i == 49 then Enumeration(0, 9)
    else if i == 50 then Enumeration(0, 19)
    else if i == 51 then Message
    else if 12 <= i <= 14 then Text
    else if i == 16 || i == 17 || i == 26 || i == 27 || i == 31 then Optional
    else if 4 <= i <= 6 || i == 15 || 22 <= i <= 24 || 29 <= i <= 30 || 35 <= i <= 42 || 44 <= i <= 46 then Boolean
    else Integer
  }

  function ShortPosition(key: string): int {
    match |key|
    case 7 => if key == "loading" then 36 else -1
    case 10 => if key == "in_vehicle" then 41 else -1
    case 11 => if key == "game_status" then 21
               else if key == "save_loaded" then 24
               else if key == "current_act" then 32
               else if key == "in_cutscene" then 37
               else if key == "test_target" then 46
               else -1
    case 12 => if key == "game_running" then 22 else if key == "current_task" then 33 else -1
    case 13 => if key == "session_nonce" then 17
               else if key == "client_status" then 19
               else if key == "source_loaded" then 23
               else if key == "current_level" then 31
               else if key == "at_title_menu" then 35
               else if key == "dying_or_dead" then 38
               else -1
    case _ => -1
  }

  function MiddlingPosition(key: string): int {
    match |key|
    case 14 => if key == "game_heartbeat" then 20 else if key == "ap_state_bound" then 30 else -1
    case 15 => if key == "item_table_hash" then 12
               else if key == "ap_state_loaded" then 29
               else if key == "last_command_id" then 47
               else if key == "last_error_code" then 50
               else -1
    case 16 => if key == "protocol_version" then 0
               else if key == "connection_ready" then 15
               else if key == "client_heartbeat" then 18
               else if key == "native_save_slot" then 25
               else if key == "level_transition" then 40
               else -1
    case 17 => if key == "slot_data_version" then 8
               else if key == "client_session_id" then 16
               else if key == "current_task_node" then 34
               else if key == "last_command_kind" then 48
               else -1
    case _ => -1
  }

  function LongPosition(key: string): int {
    match |key|
    case 18 => if key == "item_table_version" then 9
               else if key == "mission_table_hash" then 14
               else if key == "mission_restarting" then 39
               else if key == "last_error_message" then 51
               else -1
    case 19 => if key == "items_module_active" then 4
               else if key == "location_table_hash" then 13
               else if key == "last_command_result" then 49
               else -1
    case 20 => if key == "reward_module_active" then 6
               else if key == "state_schema_version" then 7
               else if key == "native_save_identity" then 26
               else if key == "recent_command_count" then 52
               else -1
    case 21 => if key == "mission_table_version" then 11 else -1
    case _ => -1
  }

  function LongestPosition(key: string): int {
    match |key|
    case 22 => if key == "bridge_runtime_version" then 2
               else if key == "location_table_version" then 10
               else if key == "consumed_save_identity" then 27
               else -1
    case 23 => if key == "locations_module_active" then 5 else if key == "native_save_eligibility" then 28 else -1
    case 24 => if key == "game_integration_version" then 1 else if key == "safe_to_apply_consumable" then 44 else -1
    case 28 => if key == "bridge_activation_generation" then 3
               else if key == "safe_to_apply_permanent_item" then 42
               else if key == "safe_to_mutate_mission_state" then 45
               else -1
    case 33 => if key == "permanent_item_native_target_mask" then 43 else -1
    case _ => -1
  }

  /** The position of a field with this key, or -1. */
  function Position(key: string): int {
    if |key| < 14 then ShortPosition(key)
    else if |key| < 18 then MiddlingPosition(key)
    else if |key| < 22 then LongPosition(key)
    else LongestPosition(key)
  }

  predicate IsKeyChar(c: char) {
    'a' <= c <= 'z' || c == '_'
  }

  /** What sets fixed keys apart from counted ones: no digit, and not in the diagnostic family. */
  ghost predicate PlainKey(key: string) {
    |key| > 1 && (forall c :: c in key ==> IsKeyChar(c)) && !(key[0] == 'd' && key[1] == 'i')
  }

  lemma KeysFrom0(i: nat)
    requires i < 5
    ensures Position(Key(i)) == i && PlainKey(Key(i))
  {}

  lemma KeysFrom5(i: nat)
    requires 5 <= i < 8
    ensures Position(Key(i)) == i && PlainKey(Key(i))
  {}

  lemma KeysFrom8(i: nat)
    requires 8 <= i < 10
    ensures Position(Key(i)) == i && PlainKey(Key(i))
  {}

  lemma KeysFrom10(i: nat)
    requires i == 10
    ensures Position(Key(i)) == i && PlainKey(Key(i))
  {}

  lemma KeysFrom11(i: nat)
    requires i == 11
    ensures Position(Key(i)) == i && PlainKey(Key(i))
  {}

  lemma KeysFrom12(i: nat)
    requires 12 <= i < 14
    ensures Position(Key(i)) == i && PlainKey(Key(i))
  {}

  lemma KeysFrom14(i: nat)
    requires 14 <= i < 18
    ensures Position(Key(i)) == i && PlainKey(Key(i))
  {}

  lemma KeysFrom18(i: nat)
    requires 18 <= i < 21
    ensures Position(Key(i)) == i && PlainKey(Key(i))
  {}

  lemma KeysFrom21(i: nat)
    requires 21 <= i < 25
    ensures Position(Key(i)) == i && PlainKey(Key(i))
  {}

  lemma KeysFrom25(i: nat)
    requires 25 <= i < 28
    ensures Position(Key(i)) == i && PlainKey(Key(i))
  {}

  lemma KeysFrom28(i: nat)
    requires 28 <= i < 34
    ensures Position(Key(i)) == i && PlainKey(Key(i))
  {}

  lemma KeysFrom34(i: nat)
    requires 34 <= i < 36
    ensures Position(Key(i)) == i && PlainKey(Key(i))
  {}

  lemma KeysFrom36(i: nat)
    requires 36 <= i < 38
    ensures Position(Key(i)) == i && PlainKey(Key(i))
  {}

  lemma KeysFrom38(i: nat)
    requires 38 <= i < 40
    ensures Position(Key(i)) == i && PlainKey(Key(i))
  {}

  lemma KeysFrom40(i: nat)
    requires 40 <= i < 41
    ensures Position(Key(i)) == i && PlainKey(Key(i))
  {}

  lemma KeysFrom41(i: nat)
    requires 41 <= i < 42
    ensures Position(Key(i)) == i && PlainKey(Key(i))
  {}

  lemma KeysFrom42(i: nat)
    requires 42 <= i < 44
    ensures Position(Key(i)) == i && PlainKey(Key(i))
  {}

  lemma KeysFrom44(i: nat)
    requires 44 <= i < 48
    ensures Position(Key(i)) == i && PlainKey(Key(i))
  {}

  lemma KeysFrom48(i: nat)
    requires 48 <= i < 51
    ensures Position(Key(i)) == i && PlainKey(Key(i))
  {}

  lemma KeysFrom51(i: nat)
    requires 51 <= i < 53
    ensures Position(Key(i)) == i && PlainKey(Key(i))
  {}

  /** Keys are plain and pairwise distinct: each determines its position. */
  lemma KeysArePlain(i: nat)
    requires i < FIELDS
    ensures Position(Key(i)) == i && PlainKey(Key(i))
  {
    if i < 5 {
      KeysFrom0(i);
    } else if i < 8 {
      KeysFrom5(i);
    } else if i < 10 {
      KeysFrom8(i);
    } else if i < 11 {
      KeysFrom10(i);
    } else if i < 12 {
      KeysFrom11(i);
    } else if i < 14 {
      KeysFrom12(i);
    } else if i < 18 {
      KeysFrom14(i);
    } else if i < 21 {
      KeysFrom18(i);
    } else if i < 25 {
      KeysFrom21(i);
    } else if i < 28 {
      KeysFrom25(i);
    } else if i < 34 {
      KeysFrom28(i);
    } else if i < 36 {
      KeysFrom34(i);
    } else if i < 38 {
      KeysFrom36(i);
    } else if i < 40 {
      KeysFrom38(i);
    } else if i < 41 {
      KeysFrom40(i);
    } else if i < 42 {
      KeysFrom41(i);
    } else if i < 44 {
      KeysFrom42(i);
    } else if i < 48 {
      KeysFrom44(i);
    } else if i < 51 {
      KeysFrom48(i);
    } else {
      KeysFrom51(i);
    }
  }
}
