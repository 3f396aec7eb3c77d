// The settings the model reads, and the exceptions that travel through it.

module Configuration {
  import opened PartitionSelection

  datatype Config = Config(
    tablePrefix: string,
    policy: Policy,
    targetFileSizeBytes: int,
    useDeltaOptimize: bool,
    lockBasePath: string,
    lockTimeout: int)

  // Interrupt stands for KeyboardInterrupt and SystemExit, which an
  // `except Exception` clause does not catch.
  datatype Exn =
    | TableNotFoundError
    | EmptyPartitionError
    | SparkCompactionError
    | OrdinaryError(message: string)
    | Interrupt
  {
    predicate IsException() {
      !Interrupt?
    }

    predicate IsCompactionError() {
      TableNotFoundError? || EmptyPartitionError? || SparkCompactionError?
    }

    // str(exc), as far as its truth value matters.
    function Message(): string {
      match this
      case TableNotFoundError => "Delta table not found"
      case EmptyPartitionError => "Partition has no data"
      case SparkCompactionError => "Spark compaction failed"
      case OrdinaryError(message) => message
      case Interrupt => ""
    }
  }
}
