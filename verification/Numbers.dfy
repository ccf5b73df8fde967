/** std::clamp. */
module Numbers {
  function Clamp(x: int, low: int, high: int): int {
    if x < low then low else if x > high then high else x
  }
}
