/** The parts of a pipeline description that the engine reads. */
module Pipelines {
  datatype Option<+T> = None | Some(value: T)

  /** A YAML value: a scalar with its Go type and its text under %v, or one of the two values
      that matrix expansion itself stores in `with`. */
  datatype Value =
    | Scalar(kind: string, text: string)
    | Index(n: nat)
    | Combination(values: map<string, Value>)

  datatype Matrix = Matrix(
    dimensions: map<string, seq<Value>>,
    includes: seq<map<string, Value>>,
    excludes: seq<map<string, Value>>)

  /** `kind` is the stage type ("approval" or ""), `cond` its `if` text. */
  datatype Stage = Stage(
    id: string,
    needs: seq<string>,
    kind: string,
    cond: string,
    matrix: Option<Matrix>,
    with: map<string, Value>)
}
