/** The uncaught exceptions that can end a run of the probe's `main`. */
module ProbeFailure {

  datatype Crash =
    | BadNumber(key: string)  // NumberFormatException from Integer.parseInt on a setting
    | NullConnection          // NullPointerException: no connection to create a statement on
    | NegativeSleep           // IllegalArgumentException from Thread.sleep
    | NullDriverClass         // NullPointerException from Class.forName on a missing driver class name
    | NotADriver              // ClassCastException: the named class is not a java.sql.Driver
}
