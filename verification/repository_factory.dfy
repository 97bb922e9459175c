/** The choice between the file-backed and the MySQL stores. */
module RepositoryFactory {
  import opened Wrappers

  datatype RepositoryType = File | MySql

  /** Which implementation a `create*` call builds. */
  datatype Implementacion = FileImpl | MySqlImpl

  /** ASCII lower-casing of one character. */
  function MinusculaChar(c: char): (r: char)
    ensures 'A' <= c <= 'Z' ==> r as int == c as int + 32
    ensures !('A' <= c <= 'Z') ==> r == c
    ensures 'a' <= r <= 'z' <==> 'a' <= c <= 'z' || 'A' <= c <= 'Z'
  {
    if 'A' <= c <= 'Z' then (c as int + 32) as char else c
  }

  /** `toLowerCase`, on ASCII letters. */
  function Minusculas(s: string): (r: string)
    ensures |r| == |s|
    ensures forall i :: 0 <= i < |s| ==> r[i] == MinusculaChar(s[i])
    decreases |s|
  {
    if |s| == 0 then "" else [MinusculaChar(s[0])] + Minusculas(s[1..])
  }

  /** `type || process.env.REPOSITORY_TYPE || "file"`: an absent or empty
      string falls through. */
  function Elegido(tipo: Option<string>, entorno: Option<string>): (r: string)
    ensures r != ""
    ensures tipo.Some? && tipo.value != "" ==> r == tipo.value
    ensures (tipo.None? || tipo.value == "") && entorno.Some? && entorno.value != "" ==> r == entorno.value
    ensures (tipo.None? || tipo.value == "") && (entorno.None? || entorno.value == "") ==> r == "file"
  {
    if tipo.Some? && tipo.value != "" then tipo.value
    else if entorno.Some? && entorno.value != "" then entorno.value
    else "file"
  }

  /** The two spellings agree letter by letter, ignoring ASCII case. */
  predicate IgualSinMayusculas(s: string, t: string)
  {
    |s| == |t| && forall i :: 0 <= i < |s| ==> MinusculaChar(s[i]) == t[i]
  }

  /** `initialize`: MySQL when the chosen value is "mysql" in any case,
      the files otherwise (including any unknown value). */
  function Initialize(tipo: Option<string>, entorno: Option<string>): (r: RepositoryType)
    ensures r.MySql? <==> IgualSinMayusculas(Elegido(tipo, entorno), "mysql")
    ensures tipo.Some? && tipo.value != "" ==> (r.MySql? <==> IgualSinMayusculas(tipo.value, "mysql"))
    ensures (tipo.None? || tipo.value == "") && (entorno.None? || entorno.value == "") ==> r.File?
  {
    var elegido := Minusculas(Elegido(tipo, entorno));
    if elegido != "file" && elegido != "mysql" then File
    else if elegido == "mysql" then MySql
    else File
  }

  /** Lower-casing twice is lower-casing once. */
  lemma MinusculasIdempotente(s: string)
    ensures Minusculas(Minusculas(s)) == Minusculas(s)
  {
    var r := Minusculas(s);
    assert forall i :: 0 <= i < |r| ==> MinusculaChar(r[i]) == r[i];
  }

  /** Selection ignores case: the argument spelt in lower case selects the
      same store as the argument itself, whatever the environment says. */
  lemma InitializeIgnoraMayusculas(t: string, entorno: Option<string>)
    requires t != ""
    ensures Initialize(Some(Minusculas(t)), entorno) == Initialize(Some(t), entorno)
  {
    MinusculasIdempotente(t);
  }

  /** Every `create*`: the MySQL implementation exactly when the recorded type
      is MySQL; before `initialize` nothing is recorded and the files are used. */
  function Crear(tipo: Option<RepositoryType>): (r: Implementacion)
    ensures r.MySqlImpl? <==> tipo == Some(MySql)
  {
    if tipo == Some(MySql) then MySqlImpl else FileImpl
  }

  /** "MySQL" and "MYSQL" select MySQL, from the argument or the environment. */
  lemma EjemplosMySql()
    ensures Initialize(Some("MySQL"), None) == MySql
    ensures Initialize(None, Some("MYSQL")) == MySql
  {
    assert Minusculas("MySQL") == "mysql";
    assert Minusculas("MYSQL") == "mysql";
  }

  /** The argument wins over the environment: "postgres" falls back to the
      files even when the environment says "mysql"; an empty argument defers
      to the environment. */
  lemma EjemplosPrecedencia()
    ensures Initialize(Some("postgres"), Some("mysql")) == File
    ensures Initialize(Some(""), Some("mysql")) == MySql
  {
    assert Minusculas("mysql") == "mysql";
  }
}
