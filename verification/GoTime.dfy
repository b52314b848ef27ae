/** Go's time.Time as far as the model needs it: nanoseconds, or the zero time that IsZero finds. */
module GoTime {
  datatype Stamp = Never | At(time: int)
}
