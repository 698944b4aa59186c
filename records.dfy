/**
 * A row of the Airtable table as the monitor receives it: the source's record id and
 * its field map. Every field value is a string; a missing field reads as "".
 */
module Records {
  import opened Text

  datatype Record = Record(id: string, fields: map<string, string>)

  /** `fields.get(name, '')` */
  function Field(fields: map<string, string>, name: string): string {
    if name in fields then fields[name] else ""
  }

  /** `fields.get(name)` used as a condition: present and non-empty. */
  predicate Truthy(fields: map<string, string>, name: string) {
    Field(fields, name) != ""
  }

  /** The server's identity: its `Server name` with white space stripped. */
  function Hostname(r: Record): string {
    Trim(Field(r.fields, "Server name"))
  }
}
