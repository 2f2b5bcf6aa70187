/** The registration table kept in `users_data.json`: user id (the decimal
    text of the chat id) -> a JSON object of string fields. */
module Users {

  type UserRecord = map<string, string>

  type UsersTable = map<string, UserRecord>

  /** The field names of a record. */
  const FirstNameKey := "first_name"
  const UsernameKey := "username"
  const UniversityKey := "university"
  const DegreeKey := "degree"
  const GroupKey := "group"

  const FieldNames: set<string> := {FirstNameKey, UsernameKey, UniversityKey, DegreeKey, GroupKey}

  /** The record `save_user_info` stores: exactly the five fields. */
  function NewUserRecord(firstName: string, username: string, university: string, degree: string, group: string): (r: UserRecord)
    ensures r.Keys == FieldNames
    ensures r[FirstNameKey] == firstName && r[UsernameKey] == username
    ensures r[UniversityKey] == university && r[DegreeKey] == degree && r[GroupKey] == group
  {
    map[FirstNameKey := firstName, UsernameKey := username,
        UniversityKey := university, DegreeKey := degree, GroupKey := group]
  }

  /** `record.get(name, default)`. */
  function FieldOr(r: UserRecord, name: string, default: string): string {
    if name in r then r[name] else default
  }
}
